/** The terrain collider's Wavefront OBJ reader, over the file contents.
    Lines are split as `std::getline` splits them; `v` records are read
    with stream float extraction and `f` records with `std::stoi` on the
    part of each token before the first `/`. */
module Obj {
  import opened Base
  import opened Geometry

  const IntMin: int := -0x8000_0000
  const IntMax: int := 0x7FFF_FFFF

  // ---------------------------------------------------------------------
  // Characters

  /** The characters `isspace` accepts in the C locale. */
  predicate IsSpace(c: char)
  {
    c == ' ' || c == '\t' || c == '\n' || c == '\r' || c as int == 11 || c as int == 12
  }

  predicate IsDigit(c: char)
  {
    '0' <= c <= '9'
  }

  function DigitValue(c: char): (d: nat)
    requires IsDigit(c)
    ensures d < 10
  {
    c as int - '0' as int
  }

  predicate AllDigits(s: string)
  {
    forall i :: 0 <= i < |s| ==> IsDigit(s[i])
  }

  /** Drops leading white space, as a stream extraction does first. */
  function SkipSpaces(s: string): (r: string)
    ensures |r| <= |s| && r == s[|s| - |r|..]
    ensures r == [] || !IsSpace(r[0])
    ensures forall i :: 0 <= i < |s| - |r| ==> IsSpace(s[i])
  {
    if s != [] && IsSpace(s[0]) then SkipSpaces(s[1..]) else s
  }

  /** Length of the leading run of decimal digits. */
  function DigitRun(s: string): (n: nat)
    ensures n <= |s|
    ensures AllDigits(s[..n])
    ensures n == |s| || !IsDigit(s[n])
  {
    if s != [] && IsDigit(s[0]) then 1 + DigitRun(s[1..]) else 0
  }

  /** The value of a decimal digit string, most significant digit first. */
  function DigitsValue(ds: string): nat
    requires AllDigits(ds)
  {
    if ds == [] then 0 else 10 * DigitsValue(ds[..|ds| - 1]) + DigitValue(ds[|ds| - 1])
  }

  function Pow10(n: nat): (r: nat)
    ensures r >= 1
  {
    if n == 0 then 1 else 10 * Pow10(n - 1)
  }

  // ---------------------------------------------------------------------
  // Numbers

  /** `std::stoi`: optional white space, optional sign, at least one
      digit; trailing characters are ignored. No digit, or a value
      outside the 32-bit range, throws, which is `None` here. */
  function Stoi(s: string): (r: Option<int>)
    ensures r.Some? ==> IntMin <= r.value <= IntMax
    ensures var body := Unsigned(SkipSpaces(s));
            DigitRun(body) == 0 ==> r.None?
    ensures var t := SkipSpaces(s);
            var body := Unsigned(t);
            var n := DigitRun(body);
            n > 0 ==>
              var v: int := if t[0] == '-' then -(DigitsValue(body[..n]) as int) else DigitsValue(body[..n]);
              (r.Some? <==> IntMin <= v <= IntMax) && (r.Some? ==> r.value == v)
  {
    var t := SkipSpaces(s);
    var neg := t != [] && t[0] == '-';
    var body := Unsigned(t);
    var n := DigitRun(body);
    if n == 0 then None
    else
      var mag: int := DigitsValue(body[..n]);
      var v := if neg then -mag else mag;
      if IntMin <= v <= IntMax then Some(v) else None
  }

  /** What follows an optional leading sign. */
  function Unsigned(t: string): (body: string)
    ensures body == t || (t != [] && (t[0] == '+' || t[0] == '-') && body == t[1..])
  {
    if t != [] && (t[0] == '+' || t[0] == '-') then t[1..] else t
  }

  /** Index of the first `c` in `s`, or the length of `s` when there is
      none (`find` with `npos` read as the end). */
  function IndexOf(s: string, c: char): (p: nat)
    ensures p <= |s|
    ensures forall i :: 0 <= i < p ==> s[i] != c
    ensures p == |s| || s[p] == c
  {
    if s == [] then 0 else if s[0] == c then 0 else 1 + IndexOf(s[1..], c)
  }

  /** The face-index conversion: `stoi` of the part before the first `/`. */
  function ParseIndex(tok: string): Option<int>
  {
    Stoi(tok[..IndexOf(tok, '/')])
  }

  /** Optional sign followed by a digit run, for an exponent. */
  function ParseExponent(s: string): Option<(int, string)>
  {
    var neg := s != [] && s[0] == '-';
    var body := if s != [] && (s[0] == '+' || s[0] == '-') then s[1..] else s;
    var n := DigitRun(body);
    if n == 0 then None
    else
      var mag: int := DigitsValue(body[..n]);
      Some((if neg then -mag else mag, body[n..]))
  }

  /** The digits of a mantissa: a digit run, then optionally a point and
      another digit run. Gives the digits without the point, how many of
      them follow the point, and the rest of the input. */
  function Mantissa(body: string): (r: (string, nat, string))
    ensures AllDigits(r.0) && r.1 <= |r.0|
  {
    var ip := DigitRun(body);
    var afterInt := body[ip..];
    if afterInt != [] && afterInt[0] == '.' then
      var frac := afterInt[1..];
      var fp := DigitRun(frac);
      (body[..ip] + frac[..fp], fp, frac[fp..])
    else (body[..ip], 0, afterInt)
  }

  /** Stream extraction of a float: white space, optional sign, digits with
      at most one decimal point (at least one digit in all), then an
      optional exponent. An exponent marker without digits fails the
      extraction, as the standard library's accumulator does. The value is
      kept as an exact real; the rest of the input is returned. */
  function ParseFloat(s: string): Option<(real, string)>
  {
    var t := SkipSpaces(s);
    var neg := t != [] && t[0] == '-';
    var body := if t != [] && (t[0] == '+' || t[0] == '-') then t[1..] else t;
    var (digits, fp, after) := Mantissa(body);
    if digits == [] then None
    else
      var m := DigitsValue(digits) as real;
      var signed := if neg then -m else m;
      if after != [] && (after[0] == 'e' || after[0] == 'E') then
        match ParseExponent(after[1..])
        case None => None
        case Some((e, rest)) => Some((ScaleByPow10(signed, e - fp), rest))
      else Some((ScaleByPow10(signed, -(fp as int)), after))
  }

  /** `m · 10^e` for an integer exponent of either sign. */
  function ScaleByPow10(m: real, e: int): real
  {
    if e >= 0 then m * Pow10(e) as real else m / Pow10(-e) as real
  }

  /** The next white-space-delimited word and what follows it, as
      `stream >> std::string` reads it. */
  function NextToken(s: string): (r: Option<(string, string)>)
    ensures r.None? <==> SkipSpaces(s) == []
    ensures r.Some? ==> r.value.0 != [] && |r.value.1| < |s|
    ensures r.Some? ==> forall i :: 0 <= i < |r.value.0| ==> !IsSpace(r.value.0[i])
    ensures r.Some? ==> r.value.0 + r.value.1 == SkipSpaces(s) && (r.value.1 == [] || IsSpace(r.value.1[0]))
  {
    var t := SkipSpaces(s);
    var n := WordRun(t);
    WordSplits(t, n);
    if n == 0 then None else Some((t[..n], t[n..]))
  }

  /** The word run of a string that does not start with a space is empty
      only for the empty string, and it splits the string at a space or
      the end. */
  lemma WordSplits(t: string, n: nat)
    requires (t == [] || !IsSpace(t[0])) && n == WordRun(t)
    ensures n == 0 <==> t == []
    ensures t[..n] + t[n..] == t && (t[n..] == [] || IsSpace(t[n..][0]))
    ensures |t[..n]| == n && (n > 0 ==> |t[n..]| < |t|)
    ensures forall i :: 0 <= i < n ==> !IsSpace(t[..n][i])
  {
  }

  function WordRun(s: string): (n: nat)
    ensures n <= |s|
    ensures forall i :: 0 <= i < n ==> !IsSpace(s[i])
    ensures n == |s| || IsSpace(s[n])
  {
    if s != [] && !IsSpace(s[0]) then 1 + WordRun(s[1..]) else 0
  }

  // ---------------------------------------------------------------------
  // Lines

  /** The lines `std::getline` yields: split at each newline, with no
      empty line after a final newline. */
  function Lines(s: string): (ls: seq<string>)
    ensures ls == [] <==> s == []
    decreases |s|
  {
    if s == [] then []
    else
      var p := IndexOf(s, '\n');
      if p == |s| then [s] else [s[..p]] + Lines(s[p + 1..])
  }

  /** The lines glued back together with newlines between them. */
  function JoinLines(ls: seq<string>): string
  {
    if |ls| == 0 then [] else if |ls| == 1 then ls[0] else ls[0] + "\n" + JoinLines(ls[1..])
  }

  // ---------------------------------------------------------------------
  // Records

  /** What the reader has accumulated so far. */
  datatype Loaded = Loaded(vertices: seq<Vec3>, triangles: seq<Triangle>)

  /** The three coordinates of a `v` record, all three extractions succeeding. */
  function ParseVertex(s: string): Option<(real, real, real)>
  {
    match ParseFloat(s)
    case None => None
    case Some((x, r1)) =>
      match ParseFloat(r1)
      case None => None
      case Some((y, r2)) =>
        match ParseFloat(r2)
        case None => None
        case Some((z, _)) => Some((x, y, z))
  }

  /** The three index words of an `f` record. */
  function FaceTokens(s: string): Option<(string, string, string)>
  {
    match NextToken(s)
    case None => None
    case Some((a, r1)) =>
      match NextToken(r1)
      case None => None
      case Some((b, r2)) =>
        match NextToken(r2)
        case None => None
        case Some((c, _)) => Some((a, b, c))
  }

  /** The 0-based indices of an `f` record; any word whose prefix is not an
      integer makes the whole record `None` (the exception is swallowed). */
  function FaceIndices(s: string): Option<(int, int, int)>
  {
    match FaceTokens(s)
    case None => None
    case Some((a, b, c)) =>
      match (ParseIndex(a), ParseIndex(b), ParseIndex(c))
      case (Some(i), Some(j), Some(k)) => Some((i - 1, j - 1, k - 1))
      case _ => None
  }

  /** A `v` record: the vertex, scaled and offset by the terrain
      model's scale and position, is appended when all three coordinates
      read. */
  function AddVertex(acc: Loaded, rest: string, scale: real, pos: Vec3): (r: Loaded)
    ensures r.triangles == acc.triangles
    ensures ParseVertex(rest).None? ==> r == acc
    ensures ParseVertex(rest).Some? ==>
              r.vertices == acc.vertices + [ToWorld(ParseVertex(rest).value, scale, pos)]
  {
    var pv := ParseVertex(rest);
    if pv.None? then acc else acc.(vertices := acc.vertices + [ToWorld(pv.value, scale, pos)])
  }

  /** Local OBJ coordinates to world space: local · scale + position. */
  function ToWorld(c: (real, real, real), scale: real, pos: Vec3): Vec3
  {
    Vec3(c.0 * scale + pos.x, c.1 * scale + pos.y, c.2 * scale + pos.z)
  }

  /** An `f` record: the triangle is appended only when its three indices
      all name vertices already read. */
  function AddFace(acc: Loaded, rest: string): (r: Loaded)
    ensures r.vertices == acc.vertices
    ensures r.triangles == acc.triangles || |r.triangles| == |acc.triangles| + 1
    ensures r.triangles != acc.triangles <==> FaceIndices(rest).Some? && InRange(FaceIndices(rest).value, |acc.vertices|)
    ensures r.triangles != acc.triangles ==>
              var ix := FaceIndices(rest).value;
              r.triangles == acc.triangles + [MakeTriangle(acc.vertices[ix.0], acc.vertices[ix.1], acc.vertices[ix.2])]
  {
    var fi := FaceIndices(rest);
    if fi.Some? && InRange(fi.value, |acc.vertices|) then
      var ix := fi.value;
      acc.(triangles := acc.triangles + [MakeTriangle(acc.vertices[ix.0], acc.vertices[ix.1], acc.vertices[ix.2])])
    else acc
  }

  /** All three indices name one of the `n` vertices read so far. */
  predicate InRange(ix: (int, int, int), n: nat)
  {
    0 <= ix.0 < n && 0 <= ix.1 < n && 0 <= ix.2 < n
  }

  /** Applies one line: only `v ` and `f ` records do anything. */
  function ReadLine(acc: Loaded, line: string, scale: real, pos: Vec3): (r: Loaded)
    ensures |line| < 2 || (line[..2] != "v " && line[..2] != "f ") ==> r == acc
    ensures |line| >= 2 && line[..2] == "v " ==> r == AddVertex(acc, line[2..], scale, pos)
    ensures |line| >= 2 && line[..2] == "f " ==> r == AddFace(acc, line[2..])
  {
    if |line| < 2 then acc
    else
      assert line[..2] == [line[0], line[1]];
      if line[0] == 'v' && line[1] == ' ' then AddVertex(acc, line[2..], scale, pos)
      else if line[0] == 'f' && line[1] == ' ' then AddFace(acc, line[2..])
      else acc
  }

  /** Every triangle the reader keeps has ordered XZ bounds and corners
      that are vertices read earlier. */
  predicate Sound(acc: Loaded)
  {
    forall k :: 0 <= k < |acc.triangles| ==>
      var t := acc.triangles[k];
      XZOrdered(t) && t.v0 in acc.vertices && t.v1 in acc.vertices && t.v2 in acc.vertices
  }

  /** One line keeps the reader sound and only appends. */
  lemma ReadLineSound(acc: Loaded, line: string, scale: real, pos: Vec3)
    requires Sound(acc)
    ensures var r := ReadLine(acc, line, scale, pos);
            Sound(r) &&
            |r.vertices| >= |acc.vertices| && r.vertices[..|acc.vertices|] == acc.vertices &&
            |r.triangles| >= |acc.triangles| && r.triangles[..|acc.triangles|] == acc.triangles &&
            |r.triangles| <= |acc.triangles| + 1
  {
    var r := ReadLine(acc, line, scale, pos);
    assert r.vertices[..|acc.vertices|] == acc.vertices;
    assert r.triangles[..|acc.triangles|] == acc.triangles;
    forall k | 0 <= k < |r.triangles|
      ensures var t := r.triangles[k];
              XZOrdered(t) && t.v0 in r.vertices && t.v1 in r.vertices && t.v2 in r.vertices
    {
      if k < |acc.triangles| {
        assert r.triangles[k] == acc.triangles[k];
      }
    }
  }

  /** Applies the lines in order. */
  function ReadLines(acc: Loaded, lines: seq<string>, scale: real, pos: Vec3): (r: Loaded)
    requires Sound(acc)
    ensures Sound(r)
    ensures |r.vertices| >= |acc.vertices| && r.vertices[..|acc.vertices|] == acc.vertices
    ensures |r.triangles| >= |acc.triangles| && r.triangles[..|acc.triangles|] == acc.triangles
    ensures |r.triangles| - |acc.triangles| <= |lines|
    decreases |lines|
  {
    if |lines| == 0 then acc
    else
      var next := ReadLine(acc, lines[0], scale, pos);
      ReadLineSound(acc, lines[0], scale, pos);
      var r := ReadLines(next, lines[1..], scale, pos);
      PrefixOfPrefix(r.vertices, next.vertices, acc.vertices);
      PrefixOfPrefix(r.triangles, next.triangles, acc.triangles);
      r
  }

  lemma PrefixOfPrefix<T>(c: seq<T>, b: seq<T>, a: seq<T>)
    requires |c| >= |b| >= |a| && c[..|b|] == b && b[..|a|] == a
    ensures c[..|a|] == a
  {
    assert c[..|a|] == c[..|b|][..|a|];
  }

  /** `loadFromObj` over the file contents: the triangles read and whether
      there was at least one (empty contents read nothing). */
  function LoadFromObj(content: string, scale: real, pos: Vec3): (r: (bool, seq<Triangle>))
    ensures r.0 <==> r.1 != []
    ensures content == [] ==> r.1 == []
    ensures forall k :: 0 <= k < |r.1| ==> XZOrdered(r.1[k])
  {
    if content == [] then (false, [])
    else
      var acc := ReadLines(Loaded([], []), Lines(content), scale, pos);
      (acc.triangles != [], acc.triangles)
  }

  // ---------------------------------------------------------------------
  // Properties

  /** The decimal spelling of a natural number. */
  function NatToDigits(n: nat): (s: string)
    ensures s != [] && AllDigits(s)
  {
    if n < 10 then [('0' as int + n) as char] else NatToDigits(n / 10) + [('0' as int + n % 10) as char]
  }

  lemma {:induction false} DigitsValueOfNat(n: nat)
    ensures DigitsValue(NatToDigits(n)) == n
    decreases n
  {
    if n >= 10 {
      var s := NatToDigits(n);
      assert s[..|s| - 1] == NatToDigits(n / 10);
      DigitsValueOfNat(n / 10);
    }
  }

  lemma {:induction false} DigitRunOfDigits(ds: string, rest: string)
    requires AllDigits(ds)
    requires rest == [] || !IsDigit(rest[0])
    ensures DigitRun(ds + rest) == |ds|
    decreases |ds|
  {
    if ds != [] {
      assert (ds + rest)[1..] == ds[1..] + rest;
      DigitRunOfDigits(ds[1..], rest);
    } else {
      assert ds + rest == rest;
    }
  }

  /** `stoi` reads back what a number prints as, whatever non-digit text
      follows it. */
  lemma StoiRoundTrip(n: nat, rest: string)
    requires n <= IntMax
    requires rest == [] || !IsDigit(rest[0])
    ensures Stoi(NatToDigits(n) + rest) == Some(n)
  {
    var s := NatToDigits(n) + rest;
    var d := NatToDigits(n);
    assert !IsSpace(s[0]) && s[0] != '+' && s[0] != '-';
    assert SkipSpaces(s) == s;
    DigitRunOfDigits(d, rest);
    assert s[..|d|] == d;
    DigitsValueOfNat(n);
  }

  /** A face word `n`, `n/t` or `n/t/m` reads as the one-based index n;
      `FaceIndices` subtracts one to get the vertex position. */
  lemma FaceWordIndex(n: nat, attrs: string)
    requires n <= IntMax
    requires attrs == [] || attrs[0] == '/'
    ensures ParseIndex(NatToDigits(n) + attrs) == Some(n)
  {
    var w := NatToDigits(n) + attrs;
    var d := NatToDigits(n);
    assert forall i :: 0 <= i < |d| ==> w[i] == d[i] && w[i] != '/';
    SlashFirst(w, |d|);
    assert w[..|d|] == d + [];
    StoiRoundTrip(n, []);
  }

  lemma SlashFirst(s: string, p: nat)
    requires p <= |s|
    requires forall i :: 0 <= i < p ==> s[i] != '/'
    requires p == |s| || s[p] == '/'
    ensures IndexOf(s, '/') == p
  {
  }

  /** A word whose prefix before `/` has no digits (such as `//1`) throws
      in `stoi`, so the record is skipped. */
  lemma EmptyPrefixRejected(attrs: string)
    requires attrs != [] && attrs[0] == '/'
    ensures ParseIndex(attrs) == None
  {
    SlashFirst(attrs, 0);
  }

  /** A plain integer spelled in a `v` record reads back as that real. */
  lemma FloatOfNat(n: nat, rest: string)
    requires rest == [] || (!IsDigit(rest[0]) && rest[0] != '.' && rest[0] != 'e' && rest[0] != 'E')
    ensures ParseFloat(NatToDigits(n) + rest) == Some((n as real, rest))
  {
    var d := NatToDigits(n);
    var s := d + rest;
    MantissaOfDigits(d, rest);
    assert s[0] == d[0];
    NoSpaceToSkip(s);
    ParseUnsigned(s, d, rest);
    DigitsValueOfNat(n);
  }

  /** Unsigned digits without fraction or exponent read as their value. */
  lemma ParseUnsigned(s: string, d: string, rest: string)
    requires s != [] && IsDigit(s[0]) && SkipSpaces(s) == s
    requires Mantissa(s) == (d, 0, rest) && d != []
    requires rest == [] || (rest[0] != 'e' && rest[0] != 'E')
    ensures ParseFloat(s) == Some((DigitsValue(d) as real, rest))
  {
    assert s[0] != '+' && s[0] != '-';
    var m := DigitsValue(d) as real;
    UnitScale(m);
  }

  /** Scaling by 10^0 keeps the value. */
  lemma UnitScale(m: real)
    ensures ScaleByPow10(m, -(0 as int)) == m
  {
    assert Pow10(0) == 1;
  }

  /** Text that starts with no white space is not skipped into. */
  lemma NoSpaceToSkip(s: string)
    requires s != [] && !IsSpace(s[0])
    ensures SkipSpaces(s) == s
  {
  }

  /** Digits without a fraction: the mantissa is the digits themselves and
      the rest is left over. */
  lemma MantissaOfDigits(d: string, rest: string)
    requires AllDigits(d)
    requires rest == [] || (!IsDigit(rest[0]) && rest[0] != '.')
    ensures Mantissa(d + rest) == (d, 0, rest)
  {
    DigitRunOfDigits(d, rest);
    assert (d + rest)[..|d|] == d;
    assert (d + rest)[|d|..] == rest;
  }

  lemma JoinCons(a: string, ls: seq<string>)
    requires ls != []
    ensures JoinLines([a] + ls) == a + "\n" + JoinLines(ls)
  {
    assert ([a] + ls)[1..] == ls;
  }

  /** What `Lines` drops from a string: its final newline, if any. */
  function FinalNewline(s: string): string
  {
    if s != [] && s[|s| - 1] == '\n' then "\n" else ""
  }

  /** No line holds a newline. */
  lemma {:induction false} LinesHaveNoNewline(s: string)
    ensures forall k :: 0 <= k < |Lines(s)| ==> '\n' !in Lines(s)[k]
    decreases |s|
  {
    if s != [] {
      var p := IndexOf(s, '\n');
      if p < |s| {
        LinesHaveNoNewline(s[p + 1..]);
        assert forall k :: 1 <= k < |Lines(s)| ==> Lines(s)[k] == Lines(s[p + 1..])[k - 1];
      }
    }
  }

  /** Splitting into lines loses nothing but a final newline. */
  lemma {:induction false} LinesRoundTrip(s: string)
    ensures JoinLines(Lines(s)) + FinalNewline(s) == s
    decreases |s|
  {
    if s != [] {
      var p := IndexOf(s, '\n');
      if p == |s| {
        assert Lines(s) == [s];
      } else {
        LinesRoundTrip(s[p + 1..]);
        LinesStep(s, p);
      }
    }
  }

  /** The round trip carries over from the text after the first newline
      to the whole text. */
  lemma LinesStep(s: string, p: nat)
    requires p == IndexOf(s, '\n') && p < |s|
    requires JoinLines(Lines(s[p + 1..])) + FinalNewline(s[p + 1..]) == s[p + 1..]
    ensures JoinLines(Lines(s)) + FinalNewline(s) == s
  {
    SplitAtNewline(s, p);
    if p + 1 == |s| {
      assert Lines(s) == [s[..p]];
    } else {
      GlueLines(s, s[..p], s[p + 1..]);
    }
  }

  /** Gluing the first line back onto a non-empty rest whose round trip
      holds. */
  lemma GlueLines(s: string, head: string, tail: string)
    requires tail != [] && Lines(tail) != [] && Lines(s) == [head] + Lines(tail)
    requires s == head + "\n" + tail && s[|s| - 1] == tail[|tail| - 1]
    requires JoinLines(Lines(tail)) + FinalNewline(tail) == tail
    ensures JoinLines(Lines(s)) + FinalNewline(s) == s
  {
    JoinCons(head, Lines(tail));
    assert FinalNewline(s) == FinalNewline(tail);
    Regroup(head, JoinLines(Lines(tail)), FinalNewline(tail));
  }

  /** Concatenation regroups around an inserted newline. */
  lemma Regroup(head: string, j: string, nl: string)
    ensures (head + "\n" + j) + nl == head + "\n" + (j + nl)
  {
  }

  /** One step of `Lines` at the first newline: the line before it comes
      first, the input is that line, the newline and the rest, and the
      input ends as the rest does. */
  lemma SplitAtNewline(s: string, p: nat)
    requires p == IndexOf(s, '\n') && p < |s|
    ensures Lines(s) == [s[..p]] + Lines(s[p + 1..])
    ensures s == s[..p] + "\n" + s[p + 1..]
    ensures s[p + 1..] == [] ==> s[|s| - 1] == '\n'
    ensures s[p + 1..] != [] ==> Lines(s[p + 1..]) != [] && s[|s| - 1] == s[p + 1..][|s[p + 1..]| - 1]
  {
    CutAt(s, p);
  }

  /** A string cut around a newline at `p`. */
  lemma CutAt(s: string, p: nat)
    requires p < |s| && s[p] == '\n'
    ensures s == s[..p] + "\n" + s[p + 1..]
    ensures s[p + 1..] == [] ==> s[|s| - 1] == '\n'
    ensures s[p + 1..] != [] ==> s[|s| - 1] == s[p + 1..][|s[p + 1..]| - 1]
  {
    assert s[p..] == [s[p]] + s[p + 1..];
    assert s == s[..p] + s[p..];
  }
}
