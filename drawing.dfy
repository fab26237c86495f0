/**
 * The geometry store of src/drawing.rs: colors paired index-for-index with
 * lists of vertices, every three consecutive vertices one triangle.
 * Operations that the source runs in place (`add_color`, `remove_triangle`,
 * `scale`, `translate`, building from text) are methods of the class
 * `ColoredTriangles`; the queries (`nearest`, `colliding`), `str2col` and the
 * text format are functions over the store's fields.
 */
module Drawing {
  import opened Wrappers
  import opened Text

  // ---------------------------------------------------------------------
  // Colors and points
  // ---------------------------------------------------------------------

  type Byte = b: nat | b < 256

  /** A color as `to_rgb_u32` writes it: red·65536 + green·256 + blue. */
  type Color = c: nat | c < 0x100_0000

  /** `from_rgb_u32` ignores everything above the low 24 bits. */
  function Low24(n: nat): (c: Color)
    ensures n < 0x100_0000 ==> c == n
  {
    n % 0x100_0000
  }

  /** Bits above the low 24 make no difference: adding 2^24 keeps the color. */
  lemma Low24Periodic(n: nat)
    ensures Low24(n + 0x100_0000) == Low24(n)
  {
    var q, r := n / 0x100_0000, n % 0x100_0000;
    assert n + 0x100_0000 == (q + 1) * 0x100_0000 + r;
  }

  function Rgb(r: Byte, g: Byte, b: Byte): Color {
    r * 0x1_0000 + g * 0x100 + b
  }

  /** `to_rgb_u32` and `from_rgb_u32` agree: each channel is read back from the packed color. */
  lemma RgbChannels(r: Byte, g: Byte, b: Byte)
    ensures Rgb(r, g, b) / 0x1_0000 == r
    ensures (Rgb(r, g, b) / 0x100) % 0x100 == g
    ensures Rgb(r, g, b) % 0x100 == b
  {
    var c := Rgb(r, g, b);
    var low := g * 0x100 + b;
    assert c == r * 0x1_0000 + low && 0 <= low < 0x1_0000;
    assert c / 0x100 == r * 0x100 + g;
  }

  datatype Point = Point(x: real, y: real)

  predicate Distinct(colors: seq<Color>) {
    forall i, j | 0 <= i < j < |colors| :: colors[i] != colors[j]
  }

  // ---------------------------------------------------------------------
  // str2col: "#rrggbb" to a color
  // ---------------------------------------------------------------------

  /** `trim_start_matches('#')`: drops every leading '#'. */
  function TrimHashes(s: string): (t: string)
    ensures |t| <= |s| && t == s[|s| - |t|..]
    ensures t == [] || t[0] != '#'
    ensures forall k | 0 <= k < |s| - |t| :: s[k] == '#'
  {
    if s != [] && s[0] == '#' then
      var t := TrimHashes(s[1..]);
      assert forall k | 1 <= k < |s| :: s[1..][k - 1] == s[k];
      t
    else s
  }

  /** `chunks(2)`: pieces of two characters, the last one possibly shorter. */
  function Chunks2(s: string): (cs: seq<string>)
    ensures forall k | 0 <= k < |cs| :: 1 <= |cs[k]| <= 2
    ensures |cs| == (|s| + 1) / 2
    ensures Concat(cs) == s
  {
    if |s| <= 2 then (if s == [] then [] else [s])
    else
      var tail := Chunks2(s[2..]);
      assert ([s[..2]] + tail)[1..] == tail;
      assert s[..2] + s[2..] == s;
      [s[..2]] + tail
  }

  /** The pieces written one after the other. */
  function Concat(cs: seq<string>): string {
    if cs == [] then [] else cs[0] + Concat(cs[1..])
  }

  /** Every chunk read as a hex byte, or `None` if one of them is not one. */
  function ParseHexBytes(chunks: seq<string>): (r: Option<seq<Byte>>)
    ensures r.Some? ==> |r.value| == |chunks|
  {
    if chunks == [] then Some([])
    else
      var head := ParseHexU8(chunks[0]);
      var tail := ParseHexBytes(chunks[1..]);
      if head.None? || tail.None? then None else Some([head.value as Byte] + tail.value)
  }

  /**
   * `str2col`: the first three bytes of the hex string are red, green and
   * blue. The source panics (`expect`, or the index `rgb[2]`) when a chunk is
   * not hex or fewer than three bytes are given; both are `None` here.
   */
  function Str2Col(s: string): Option<Color> {
    match ParseHexBytes(Chunks2(TrimHashes(s)))
    case Some(bytes) =>
      if |bytes| < 3 then None else Some(Rgb(bytes[0], bytes[1], bytes[2]))
    case None => None
  }

  /** The byte written by two hex digits. */
  function HexByte(hi: char, lo: char): Byte
    requires IsHexDigit(hi) && IsHexDigit(lo)
  {
    HexValue(hi) * 16 + HexValue(lo)
  }

  lemma ParseHexPair(s: string)
    requires |s| == 2 && AllHexDigits(s)
    ensures ParseHexU8(s) == Some(HexByte(s[0], s[1]))
  {
    assert IsHexDigit(s[0]) && IsHexDigit(s[1]);
    var one := s[..1];
    assert one[..0] == [] && one[0] == s[0];
    assert HexDigitsValue(one) == HexValue(s[0]);
    assert s[..|s| - 1] == one;
    assert HexDigitsValue(s) == HexValue(s[0]) * 16 + HexValue(s[1]);
  }

  /** "#rrggbb" gives the color with those three channels. */
  lemma Str2ColHex(digits: string)
    requires |digits| == 6 && AllHexDigits(digits)
    ensures Str2Col("#" + digits) == Some(Rgb(HexByte(digits[0], digits[1]),
                                              HexByte(digits[2], digits[3]),
                                              HexByte(digits[4], digits[5])))
  {
    var bytes := [HexByte(digits[0], digits[1]), HexByte(digits[2], digits[3]), HexByte(digits[4], digits[5])];
    assert IsHexDigit(digits[0]);
    TrimOneHash(digits);
    SixHexDigits(digits);
  }

  /** The red, green and blue channels of "#rrggbb" are the bytes rr, gg and bb. */
  lemma Str2ColChannels(digits: string)
    requires |digits| == 6 && AllHexDigits(digits)
    ensures Str2Col("#" + digits).Some?
    ensures var c := Str2Col("#" + digits).value;
            c / 0x1_0000 == HexByte(digits[0], digits[1])
            && (c / 0x100) % 0x100 == HexByte(digits[2], digits[3])
            && c % 0x100 == HexByte(digits[4], digits[5])
  {
    Str2ColHex(digits);
    RgbChannels(HexByte(digits[0], digits[1]), HexByte(digits[2], digits[3]), HexByte(digits[4], digits[5]));
  }

  lemma TrimOneHash(s: string)
    requires s == [] || s[0] != '#'
    ensures TrimHashes("#" + s) == s
  {
    assert ("#" + s)[1..] == s;
  }

  /** Six hex digits are three chunks, each of which is one byte. */
  lemma SixHexDigits(digits: string)
    requires |digits| == 6 && AllHexDigits(digits)
    ensures ParseHexBytes(Chunks2(digits)) ==
              Some([HexByte(digits[0], digits[1]), HexByte(digits[2], digits[3]), HexByte(digits[4], digits[5])])
  {
    var rest := digits[2..];
    var last := rest[2..];
    assert Chunks2(last) == [last];
    assert Chunks2(rest) == [rest[..2], last];
    assert Chunks2(digits) == [digits[..2], rest[..2], last];
    ParseHexPair(digits[..2]);
    ParseHexPair(rest[..2]);
    ParseHexPair(last);
    ParseHexBytesAll([digits[..2], rest[..2], last],
                     [HexByte(digits[0], digits[1]), HexByte(rest[0], rest[1]), HexByte(last[0], last[1])]);
  }

  lemma {:induction false} ParseHexBytesAll(chunks: seq<string>, bytes: seq<Byte>)
    requires |chunks| == |bytes|
    requires forall i | 0 <= i < |chunks| :: ParseHexU8(chunks[i]) == Some(bytes[i] as nat)
    ensures ParseHexBytes(chunks) == Some(bytes)
  {
    if chunks != [] {
      var rest, later := chunks[1..], bytes[1..];
      forall i | 0 <= i < |rest| ensures ParseHexU8(rest[i]) == Some(later[i] as nat) {
        assert rest[i] == chunks[i + 1] && later[i] == bytes[i + 1];
      }
      ParseHexBytesAll(rest, later);
      assert ParseHexU8(chunks[0]) == Some(bytes[0] as nat);
      assert bytes == [bytes[0]] + later;
    }
  }

  /** Fewer than five characters after the '#'s cannot hold three channels. */
  lemma Str2ColTooShort(s: string)
    requires |TrimHashes(s)| <= 4
    ensures Str2Col(s).None?
  {
  }

  // ---------------------------------------------------------------------
  // Whole-store transformations
  // ---------------------------------------------------------------------

  function ScalePoint(p: Point, sx: real, sy: real): Point {
    Point(p.x * sx, p.y * sy)
  }

  function TranslatePoint(p: Point, dx: real, dy: real): Point {
    Point(p.x + dx, p.y + dy)
  }

  function ScaledRow(pts: seq<Point>, sx: real, sy: real): seq<Point> {
    seq(|pts|, i requires 0 <= i < |pts| => ScalePoint(pts[i], sx, sy))
  }

  function TranslatedRow(pts: seq<Point>, dx: real, dy: real): seq<Point> {
    seq(|pts|, i requires 0 <= i < |pts| => TranslatePoint(pts[i], dx, dy))
  }

  /** Every point of every color multiplied by (sx, sy). */
  function Scaled(tris: seq<seq<Point>>, sx: real, sy: real): seq<seq<Point>> {
    seq(|tris|, c requires 0 <= c < |tris| => ScaledRow(tris[c], sx, sy))
  }

  /** Every point of every color moved by (dx, dy). */
  function Translated(tris: seq<seq<Point>>, dx: real, dy: real): seq<seq<Point>> {
    seq(|tris|, c requires 0 <= c < |tris| => TranslatedRow(tris[c], dx, dy))
  }

  /** `drain(3i..3i+3)` on one vertex list. */
  function WithoutTriangle(pts: seq<Point>, i: nat): seq<Point>
    requires 3 * i + 3 <= |pts|
  {
    pts[..3 * i] + pts[3 * i + 3..]
  }

  /** Every vertex list holds whole triangles. */
  predicate Triangulated(tris: seq<seq<Point>>) {
    forall c | 0 <= c < |tris| :: |tris[c]| % 3 == 0
  }

  // ---------------------------------------------------------------------
  // The store
  // ---------------------------------------------------------------------

  class ColoredTriangles {
    /** Colors that can be used to draw triangles. */
    var colors: seq<Color>
    /** Vertices of triangles, one list for each color. */
    var triangles: seq<seq<Point>>

    /** One vertex list per color, and no color twice. */
    ghost predicate Valid()
      reads this
    {
      |colors| == |triangles| && Distinct(colors)
    }

    constructor Empty()
      ensures Valid() && colors == [] && triangles == []
    {
      colors := [];
      triangles := [];
    }

    /**
     * `add_color`: appends the color with an empty vertex list unless it is
     * already present. A string that is not a color makes the source panic;
     * here it is reported with `ok == false` and changes nothing.
     */
    method AddColor(hex: string) returns (ok: bool)
      requires Valid()
      modifies this
      ensures Valid()
      ensures ok == Str2Col(hex).Some?
      ensures !ok || Str2Col(hex).value in old(colors) ==>
                colors == old(colors) && triangles == old(triangles)
      ensures ok && Str2Col(hex).value !in old(colors) ==>
                colors == old(colors) + [Str2Col(hex).value] && triangles == old(triangles) + [[]]
    {
      var color := Str2Col(hex);
      if color.None? {
        return false;
      }
      ok := true;
      if color.value !in colors {
        colors := colors + [color.value];
        triangles := triangles + [[]];
      }
    }

    /** `remove_triangle`: deletes the vertices 3i, 3i+1, 3i+2 of color c. */
    method RemoveTriangle(c: nat, i: nat)
      requires Valid()
      requires c < |triangles| && 3 * i + 3 <= |triangles[c]|
      modifies this
      ensures Valid() && colors == old(colors)
      ensures triangles == old(triangles)[c := WithoutTriangle(old(triangles)[c], i)]
    {
      triangles := triangles[c := triangles[c][..3 * i] + triangles[c][3 * i + 3..]];
    }

    /** `scale`: multiplies every point by (sx, sy), one point at a time. */
    method Scale(sx: real, sy: real)
      requires Valid()
      modifies this
      ensures Valid() && colors == old(colors)
      ensures triangles == Scaled(old(triangles), sx, sy)
    {
      ghost var before := triangles;
      for c := 0 to |triangles|
        invariant colors == old(colors) && |triangles| == |before|
        invariant forall k | 0 <= k < c :: triangles[k] == ScaledRow(before[k], sx, sy)
        invariant forall k | c <= k < |triangles| :: triangles[k] == before[k]
      {
        for i := 0 to |triangles[c]|
          invariant colors == old(colors) && |triangles| == |before|
          invariant forall k | 0 <= k < |triangles| && k != c ::
                      triangles[k] == if k < c then ScaledRow(before[k], sx, sy) else before[k]
          invariant |triangles[c]| == |before[c]|
          invariant forall j | 0 <= j < i :: triangles[c][j] == ScalePoint(before[c][j], sx, sy)
          invariant forall j | i <= j < |triangles[c]| :: triangles[c][j] == before[c][j]
        {
          triangles := triangles[c := triangles[c][i := ScalePoint(triangles[c][i], sx, sy)]];
        }
      }
    }

    /** `translate`: moves every point by (dx, dy), one point at a time. */
    method Translate(dx: real, dy: real)
      requires Valid()
      modifies this
      ensures Valid() && colors == old(colors)
      ensures triangles == Translated(old(triangles), dx, dy)
    {
      ghost var before := triangles;
      for c := 0 to |triangles|
        invariant colors == old(colors) && |triangles| == |before|
        invariant forall k | 0 <= k < c :: triangles[k] == TranslatedRow(before[k], dx, dy)
        invariant forall k | c <= k < |triangles| :: triangles[k] == before[k]
      {
        for i := 0 to |triangles[c]|
          invariant colors == old(colors) && |triangles| == |before|
          invariant forall k | 0 <= k < |triangles| && k != c ::
                      triangles[k] == if k < c then TranslatedRow(before[k], dx, dy) else before[k]
          invariant |triangles[c]| == |before[c]|
          invariant forall j | 0 <= j < i :: triangles[c][j] == TranslatePoint(before[c][j], dx, dy)
          invariant forall j | i <= j < |triangles[c]| :: triangles[c][j] == before[c][j]
        {
          triangles := triangles[c := triangles[c][i := TranslatePoint(triangles[c][i], dx, dy)]];
        }
      }
    }

    /**
     * `From<&str>`: builds a store line by line; a line whose color is already
     * present has its points appended to that color's list. The source panics
     * on a malformed line; the result is then `None`.
     */
    static method FromText(text: string) returns (r: Option<ColoredTriangles>)
      ensures r.None? <==> ParseText(text).None?
      ensures r.Some? ==> fresh(r.value) && r.value.Valid()
      ensures r.Some? ==> Geometry(r.value.colors, r.value.triangles) == ParseText(text).value
    {
      var ct := new ColoredTriangles.Empty();
      var lines := Lines(text);
      ghost var parsed := ParsedLines(lines);
      for k := 0 to |lines|
        invariant fresh(ct) && ct.Valid()
        invariant AllRows(parsed[..k]).Some?
        invariant Geometry(ct.colors, ct.triangles) == Merge(AllRows(parsed[..k]).value)
      {
        AllRowsSnoc(parsed, k);
        var row := ParseRow(lines[k]);
        assert row == parsed[k];
        if row.None? {
          AllRowsPrefix(parsed, k + 1);
          return None;
        }
        MergeSnoc(AllRows(parsed[..k]).value, row.value);
        var i := IndexOfColor(ct.colors, row.value.color);
        if i < |ct.colors| {
          ct.triangles := ct.triangles[i := ct.triangles[i] + row.value.points];
        } else {
          ct.colors := ct.colors + [row.value.color];
          ct.triangles := ct.triangles + [row.value.points];
        }
      }
      assert parsed[..|lines|] == parsed;
      return Some(ct);
    }
  }

  // ---------------------------------------------------------------------
  // nearest: the n stored points closest to a point
  // ---------------------------------------------------------------------

  /** Color index, point index and squared distance of one stored point. */
  datatype Near = Near(color: nat, index: nat, dist: real)

  function SqDist(a: Point, b: Point): real {
    (a.x - b.x) * (a.x - b.x) + (a.y - b.y) * (a.y - b.y)
  }

  /** The entry describes a stored point and its squared distance from `p`. */
  predicate ValidNear(tris: seq<seq<Point>>, p: Point, e: Near) {
    e.color < |tris| && e.index < |tris[e.color]| && e.dist == SqDist(tris[e.color][e.index], p)
  }

  /** `a` comes before `b` in the order the source enumerates points. */
  predicate Precedes(a: Near, b: Near) {
    a.color < b.color || (a.color == b.color && a.index < b.index)
  }

  /** Nearer first; at equal distance, earlier enumerated first. */
  predicate Before(a: Near, b: Near) {
    a.dist < b.dist || (a.dist == b.dist && Precedes(a, b))
  }

  function TotalPoints(tris: seq<seq<Point>>): nat
    decreases |tris|
  {
    if tris == [] then 0 else TotalPoints(tris[..|tris| - 1]) + |tris[|tris| - 1]|
  }

  function RowDistances(pts: seq<Point>, c: nat, p: Point): seq<Near> {
    seq(|pts|, i requires 0 <= i < |pts| => Near(c, i, SqDist(pts[i], p)))
  }

  /** Every stored point with its squared distance from `p`, colors then points. */
  function Distances(tris: seq<seq<Point>>, p: Point): seq<Near>
    decreases |tris|
  {
    if tris == [] then []
    else Distances(tris[..|tris| - 1], p) + RowDistances(tris[|tris| - 1], |tris| - 1, p)
  }

  /** The list of distances is exactly the store's points, in enumeration order. */
  lemma {:induction false} DistancesSpec(tris: seq<seq<Point>>, p: Point)
    ensures |Distances(tris, p)| == TotalPoints(tris)
    ensures forall k | 0 <= k < |Distances(tris, p)| :: ValidNear(tris, p, Distances(tris, p)[k])
    ensures forall j, k | 0 <= j < k < |Distances(tris, p)| ::
              Precedes(Distances(tris, p)[j], Distances(tris, p)[k])
    ensures forall c, i | 0 <= c < |tris| && 0 <= i < |tris[c]| ::
              Near(c, i, SqDist(tris[c][i], p)) in Distances(tris, p)
    decreases |tris|
  {
    if tris != [] {
      var n := |tris| - 1;
      var init := tris[..n];
      DistancesSpec(init, p);
      var d0 := Distances(init, p);
      var row := RowDistances(tris[n], n, p);
      var d := d0 + row;
      assert Distances(tris, p) == d;
      forall k | 0 <= k < |d| ensures ValidNear(tris, p, d[k]) {
        if k < |d0| {
          assert ValidNear(init, p, d0[k]);
        }
      }
      forall c, i | 0 <= c < |tris| && 0 <= i < |tris[c]|
        ensures Near(c, i, SqDist(tris[c][i], p)) in d
      {
        if c < n {
          assert init[c] == tris[c];
          assert Near(c, i, SqDist(init[c][i], p)) in d0;
        } else {
          assert row[i] == Near(c, i, SqDist(tris[c][i], p));
        }
      }
      forall j, k | 0 <= j < k < |d| ensures Precedes(d[j], d[k]) {
        if j < |d0| && k >= |d0| {
          assert ValidNear(init, p, d0[j]);
        }
      }
    }
  }

  /** Inserts `x` before the first entry whose distance is not smaller. */
  function InsertByDist(x: Near, s: seq<Near>): seq<Near> {
    if s == [] || x.dist <= s[0].dist then [x] + s else [s[0]] + InsertByDist(x, s[1..])
  }

  /** The stable sort of `sort_by` on the distance. */
  function SortByDist(s: seq<Near>): seq<Near> {
    if s == [] then [] else InsertByDist(s[0], SortByDist(s[1..]))
  }

  predicate Ordered(s: seq<Near>) {
    forall j, k | 0 <= j < k < |s| :: Before(s[j], s[k])
  }

  lemma {:induction false} InsertPermutes(x: Near, s: seq<Near>)
    ensures multiset(InsertByDist(x, s)) == multiset([x] + s)
  {
    if s != [] && x.dist > s[0].dist {
      InsertPermutes(x, s[1..]);
      assert s == [s[0]] + s[1..];
    }
  }

  lemma {:induction false} SortPermutes(s: seq<Near>)
    ensures multiset(SortByDist(s)) == multiset(s)
  {
    if s != [] {
      SortPermutes(s[1..]);
      InsertPermutes(s[0], SortByDist(s[1..]));
      assert s == [s[0]] + s[1..];
    }
  }

  lemma {:induction false} InsertOrdered(x: Near, s: seq<Near>)
    requires Ordered(s)
    requires forall y | y in s :: Precedes(x, y)
    ensures Ordered(InsertByDist(x, s))
  {
    if s != [] && x.dist > s[0].dist {
      var tail := InsertByDist(x, s[1..]);
      InsertOrdered(x, s[1..]);
      InsertMembers(x, s[1..]);
      assert forall z | z in tail :: Before(s[0], z);
    }
  }

  lemma {:induction false} InsertMembers(x: Near, s: seq<Near>)
    ensures forall z | z in InsertByDist(x, s) :: z == x || z in s
  {
    if s != [] && x.dist > s[0].dist {
      InsertMembers(x, s[1..]);
    }
  }

  /** Sorting a list given in enumeration order keeps that order on ties. */
  lemma {:induction false} SortOrdered(s: seq<Near>)
    requires forall j, k | 0 <= j < k < |s| :: Precedes(s[j], s[k])
    ensures Ordered(SortByDist(s))
  {
    if s != [] {
      var sorted := SortByDist(s[1..]);
      SortOrdered(s[1..]);
      SortPermutes(s[1..]);
      forall y | y in sorted ensures Precedes(s[0], y) {
        assert y in multiset(s[1..]);
      }
      InsertOrdered(s[0], sorted);
    }
  }

  /**
   * `nearest(n, p)`: the first min(n, total) entries of all stored points
   * sorted by squared distance from `p`, ties in enumeration order; every
   * point left out comes after every point returned in that order.
   */
  function Nearest(tris: seq<seq<Point>>, n: nat, p: Point): (r: seq<Near>)
    ensures |r| == if n < TotalPoints(tris) then n else TotalPoints(tris)
    ensures forall k | 0 <= k < |r| :: ValidNear(tris, p, r[k])
    ensures forall j, k | 0 <= j < k < |r| :: Before(r[j], r[k])
    ensures forall c, i | 0 <= c < |tris| && 0 <= i < |tris[c]| ::
              Near(c, i, SqDist(tris[c][i], p)) in r
              || forall k | 0 <= k < |r| :: Before(r[k], Near(c, i, SqDist(tris[c][i], p)))
  {
    var all := Distances(tris, p);
    DistancesSpec(tris, p);
    SortPermutes(all);
    SortOrdered(all);
    var sorted := SortByDist(all);
    var m := if n < |sorted| then n else |sorted|;
    NearestPrefix(tris, p, all, sorted, m);
    sorted[..m]
  }

  lemma NearestPrefix(tris: seq<seq<Point>>, p: Point, all: seq<Near>, sorted: seq<Near>, m: nat)
    requires multiset(sorted) == multiset(all) && Ordered(sorted) && m <= |sorted|
    requires forall k | 0 <= k < |all| :: ValidNear(tris, p, all[k])
    requires forall c, i | 0 <= c < |tris| && 0 <= i < |tris[c]| :: Near(c, i, SqDist(tris[c][i], p)) in all
    ensures |sorted| == |all|
    ensures forall k | 0 <= k < m :: ValidNear(tris, p, sorted[k])
    ensures forall c, i | 0 <= c < |tris| && 0 <= i < |tris[c]| ::
              Near(c, i, SqDist(tris[c][i], p)) in sorted[..m]
              || forall k | 0 <= k < m :: Before(sorted[k], Near(c, i, SqDist(tris[c][i], p)))
  {
    assert |sorted| == |multiset(sorted)| == |multiset(all)| == |all|;
    forall k | 0 <= k < m ensures ValidNear(tris, p, sorted[k]) {
      assert sorted[k] in multiset(all);
      var j :| 0 <= j < |all| && all[j] == sorted[k];
    }
    forall c, i | 0 <= c < |tris| && 0 <= i < |tris[c]|
      ensures Near(c, i, SqDist(tris[c][i], p)) in sorted[..m]
              || forall k | 0 <= k < m :: Before(sorted[k], Near(c, i, SqDist(tris[c][i], p)))
    {
      var e := Near(c, i, SqDist(tris[c][i], p));
      assert e in multiset(sorted);
      var j :| 0 <= j < |sorted| && sorted[j] == e;
      if j >= m {
        forall k | 0 <= k < m ensures Before(sorted[k], e) {
          assert Before(sorted[k], sorted[j]);
        }
      } else {
        assert sorted[..m][j] == e;
      }
    }
  }

  // ---------------------------------------------------------------------
  // colliding: the first triangle that contains a point
  // ---------------------------------------------------------------------

  function Sign(p1: Point, p2: Point, p3: Point): real {
    (p1.x - p3.x) * (p2.y - p3.y) - (p2.x - p3.x) * (p1.y - p3.y)
  }

  /**
   * The sign test: `p` is inside unless the three signs include both a
   * negative and a positive one, so a point on an edge counts as inside.
   */
  predicate Contains(p: Point, a: Point, b: Point, c: Point) {
    var d1 := Sign(p, a, b);
    var d2 := Sign(p, b, c);
    var d3 := Sign(p, c, a);
    var hasNeg := d1 < 0.0 || d2 < 0.0 || d3 < 0.0;
    var hasPos := d1 > 0.0 || d2 > 0.0 || d3 > 0.0;
    !(hasNeg && hasPos)
  }

  /** Triangle `t` of color `c` exists and contains `p`. */
  predicate HitAt(tris: seq<seq<Point>>, p: Point, c: nat, t: nat) {
    c < |tris| && 3 * t + 3 <= |tris[c]|
    && Contains(p, tris[c][3 * t], tris[c][3 * t + 1], tris[c][3 * t + 2])
  }

  /** The first triangle from `t` on, in color `c`, that contains `p`. */
  function FirstHitInColor(tris: seq<seq<Point>>, p: Point, c: nat, t: nat): (r: Option<nat>)
    requires c < |tris|
    ensures r.Some? ==> t <= r.value && HitAt(tris, p, c, r.value)
    ensures r.Some? ==> forall u | t <= u < r.value :: !HitAt(tris, p, c, u)
    ensures r.None? ==> forall u | t <= u :: !HitAt(tris, p, c, u)
    decreases |tris[c]| - 3 * t
  {
    if 3 * t + 3 > |tris[c]| then None
    else if HitAt(tris, p, c, t) then Some(t)
    else FirstHitInColor(tris, p, c, t + 1)
  }

  /** The first hit in colors `c` and later, colors first, then triangles. */
  function FirstHitFrom(tris: seq<seq<Point>>, p: Point, c: nat): (r: Option<(nat, nat)>)
    ensures r.Some? ==> c <= r.value.0 && HitAt(tris, p, r.value.0, r.value.1)
    ensures r.Some? ==> forall d, u | c <= d < r.value.0 :: !HitAt(tris, p, d, u)
    ensures r.Some? ==> forall u: nat | u < r.value.1 :: !HitAt(tris, p, r.value.0, u)
    ensures r.None? ==> forall d, u | c <= d :: !HitAt(tris, p, d, u)
    decreases |tris| - c
  {
    if c >= |tris| then None
    else match FirstHitInColor(tris, p, c, 0)
      case Some(t) => Some((c, t))
      case None => FirstHitFrom(tris, p, c + 1)
  }

  /**
   * `colliding(p)`: `None` exactly when no triangle contains `p`; otherwise
   * the first containing triangle, scanning colors and then triangles in
   * stored order. The source panics on a vertex list that is not a whole
   * number of triangles, hence the precondition.
   */
  function Colliding(tris: seq<seq<Point>>, p: Point): (r: Option<(nat, nat)>)
    requires Triangulated(tris)
    ensures r.None? <==> forall c, t :: !HitAt(tris, p, c, t)
    ensures r.Some? ==> HitAt(tris, p, r.value.0, r.value.1)
    ensures r.Some? ==> forall c, t | HitAt(tris, p, c, t) ::
              r.value.0 < c || (r.value.0 == c && r.value.1 <= t)
  {
    FirstHitFrom(tris, p, 0)
  }

  function Centroid(a: Point, b: Point, c: Point): Point {
    Point((a.x + b.x + c.x) / 3.0, (a.y + b.y + c.y) / 3.0)
  }

  /** The three signs at the centroid all equal a third of the triangle's orientation. */
  lemma CentroidInside(a: Point, b: Point, c: Point)
    ensures Contains(Centroid(a, b, c), a, b, c)
  {
    var g := Centroid(a, b, c);
    var o := (b.x - a.x) * (c.y - a.y) - (c.x - a.x) * (b.y - a.y);
    assert Sign(g, a, b) == o / 3.0;
    assert Sign(g, b, c) == o / 3.0;
    assert Sign(g, c, a) == o / 3.0;
  }

  /** The centroid of a stored triangle always collides with some triangle. */
  lemma CollidingCentroid(tris: seq<seq<Point>>, c: nat, t: nat)
    requires Triangulated(tris) && c < |tris| && 3 * t + 3 <= |tris[c]|
    ensures var g := Centroid(tris[c][3 * t], tris[c][3 * t + 1], tris[c][3 * t + 2]);
            Colliding(tris, g).Some? && Colliding(tris, g).value.0 <= c
  {
    var g := Centroid(tris[c][3 * t], tris[c][3 * t + 1], tris[c][3 * t + 2]);
    CentroidInside(tris[c][3 * t], tris[c][3 * t + 1], tris[c][3 * t + 2]);
    assert HitAt(tris, g, c, t);
  }

  // ---------------------------------------------------------------------
  // Display: one line "<color> x,y x,y ...\n" per color
  // ---------------------------------------------------------------------

  function PointText(p: Point): string {
    FormatReal(p.x) + "," + FormatReal(p.y)
  }

  function PointTexts(pts: seq<Point>): seq<string> {
    seq(|pts|, i requires 0 <= i < |pts| => PointText(pts[i]))
  }

  function RowText(color: Color, pts: seq<Point>): string {
    NatToString(color) + " " + Join(PointTexts(pts), " ")
  }

  /** `Display`: the colors in stored order, each with its points. */
  function Serialise(colors: seq<Color>, tris: seq<seq<Point>>): string
    requires |colors| == |tris|
  {
    if colors == [] then "" else RowText(colors[0], tris[0]) + "\n" + Serialise(colors[1..], tris[1..])
  }

  // ---------------------------------------------------------------------
  // From<&str>: one line per color, lines repeating a color merged
  // ---------------------------------------------------------------------

  /** One parsed line: its color and its points. */
  datatype Row = Row(color: Color, points: seq<Point>)

  /** A store's two lists as values. */
  datatype Geometry = Geometry(colors: seq<Color>, triangles: seq<seq<Point>>)

  /** The values of a list of parses when every one succeeded, `collect` into an `Option`. */
  function AllSome<T>(parses: seq<Option<T>>): (r: Option<seq<T>>)
    ensures r.Some? ==> |r.value| == |parses|
  {
    if parses == [] then Some([])
    else
      var tail := AllSome(parses[1..]);
      if parses[0].None? || tail.None? then None else Some([parses[0].value] + tail.value)
  }

  /** Every comma-separated piece of a point token parsed as a number. */
  function ParseCoords(pieces: seq<string>): (r: Option<seq<real>>)
    ensures r.Some? ==> |r.value| == |pieces|
  {
    AllSome(seq(|pieces|, i requires 0 <= i < |pieces| => ParseDecimal(pieces[i])))
  }

  /** "x,y": every piece must be a number and there must be at least two. */
  function ParsePoint(tok: string): Option<Point> {
    match ParseCoords(Split(tok, ','))
    case Some(vs) => if |vs| < 2 then None else Some(Point(vs[0], vs[1]))
    case None => None
  }

  function ParsePoints(toks: seq<string>): (r: Option<seq<Point>>)
    ensures r.Some? ==> |r.value| == |toks|
  {
    AllSome(seq(|toks|, i requires 0 <= i < |toks| => ParsePoint(toks[i])))
  }

  /**
   * One line: a u32 color, of which `from_rgb_u32` keeps the low 24 bits,
   * and then points. An empty line has no color and makes the source panic.
   */
  function ParseRow(line: string): Option<Row> {
    ParseTokens(Words(line))
  }

  function ParseTokens(toks: seq<string>): Option<Row> {
    if toks == [] then None
    else
      var color := ParseU32(toks[0]);
      var pts := ParsePoints(toks[1..]);
      if color.None? || pts.None? then None else Some(Row(Low24(color.value), pts.value))
  }

  function ParsedLines(lines: seq<string>): seq<Option<Row>> {
    seq(|lines|, i requires 0 <= i < |lines| => ParseRow(lines[i]))
  }

  /** Every line's row, or `None` as soon as one line is malformed. */
  function AllRows(parsed: seq<Option<Row>>): Option<seq<Row>>
    decreases |parsed|
  {
    if parsed == [] then Some([])
    else
      var init := AllRows(parsed[..|parsed| - 1]);
      var last := parsed[|parsed| - 1];
      if init.None? || last.None? then None else Some(init.value + [last.value])
  }

  lemma AllRowsSnoc(parsed: seq<Option<Row>>, k: nat)
    requires k < |parsed|
    ensures AllRows(parsed[..k + 1]) ==
              if AllRows(parsed[..k]).Some? && parsed[k].Some?
              then Some(AllRows(parsed[..k]).value + [parsed[k].value])
              else None
  {
    assert parsed[..k + 1][..k] == parsed[..k];
  }

  lemma MergeSnoc(rows: seq<Row>, row: Row)
    ensures Merge(rows + [row]) == AddRow(Merge(rows), row)
  {
    assert (rows + [row])[..|rows|] == rows;
  }

  lemma {:induction false} AllRowsPrefix(parsed: seq<Option<Row>>, k: nat)
    requires k <= |parsed| && AllRows(parsed[..k]).None?
    ensures AllRows(parsed).None?
    decreases |parsed| - k
  {
    if k < |parsed| {
      assert parsed[..k + 1][..k] == parsed[..k];
      AllRowsPrefix(parsed, k + 1);
    } else {
      assert parsed[..k] == parsed;
    }
  }

  /** Index of the first occurrence of `c`, or `|colors|`. */
  function IndexOfColor(colors: seq<Color>, c: Color): (i: nat)
    ensures i <= |colors|
    ensures i < |colors| ==> colors[i] == c
    ensures forall j | 0 <= j < i :: colors[j] != c
  {
    if colors == [] || colors[0] == c then 0 else 1 + IndexOfColor(colors[1..], c)
  }

  /** Adds one parsed line to a store, merging it into its color if present. */
  function AddRow(g: Geometry, row: Row): Geometry
    requires |g.colors| == |g.triangles|
  {
    var i := IndexOfColor(g.colors, row.color);
    if i < |g.colors| then Geometry(g.colors, g.triangles[i := g.triangles[i] + row.points])
    else Geometry(g.colors + [row.color], g.triangles + [row.points])
  }

  /** The store built from parsed lines, in line order. */
  function Merge(rows: seq<Row>): (g: Geometry)
    ensures |g.colors| == |g.triangles| && Distinct(g.colors)
    decreases |rows|
  {
    if rows == [] then Geometry([], [])
    else AddRow(Merge(rows[..|rows| - 1]), rows[|rows| - 1])
  }

  function ParseText(text: string): Option<Geometry> {
    match AllRows(ParsedLines(Lines(text)))
    case Some(rows) => Some(Merge(rows))
    case None => None
  }

  // ---------------------------------------------------------------------
  // Properties of the text format
  // ---------------------------------------------------------------------

  function RowColors(rows: seq<Row>): seq<Color> {
    seq(|rows|, i requires 0 <= i < |rows| => rows[i].color)
  }

  /** The colors in order of first appearance, each once. */
  function FirstAppearances(cs: seq<Color>): seq<Color>
    decreases |cs|
  {
    if cs == [] then []
    else
      var init := cs[..|cs| - 1];
      FirstAppearances(init) + (if cs[|cs| - 1] in init then [] else [cs[|cs| - 1]])
  }

  /** The points of every line of color `c`, concatenated in line order. */
  function PointsOf(rows: seq<Row>, c: Color): seq<Point>
    decreases |rows|
  {
    if rows == [] then []
    else
      var last := rows[|rows| - 1];
      PointsOf(rows[..|rows| - 1], c) + (if last.color == c then last.points else [])
  }

  lemma {:induction false} FirstAppearancesSameSet(cs: seq<Color>)
    ensures forall c :: c in FirstAppearances(cs) <==> c in cs
    decreases |cs|
  {
    if cs != [] {
      var init := cs[..|cs| - 1];
      FirstAppearancesSameSet(init);
      assert cs == init + [cs[|cs| - 1]];
    }
  }

  lemma {:induction false} PointsOfAbsent(rows: seq<Row>, c: Color)
    requires c !in RowColors(rows)
    ensures PointsOf(rows, c) == []
    decreases |rows|
  {
    if rows != [] {
      var init := rows[..|rows| - 1];
      assert RowColors(init) == RowColors(rows)[..|rows| - 1];
      assert rows[|rows| - 1].color == RowColors(rows)[|rows| - 1];
      PointsOfAbsent(init, c);
    }
  }

  /**
   * Parsing keeps one entry per distinct color, in order of first appearance,
   * and gives each color the points of all its lines in line order.
   */
  lemma {:induction false} MergeSpec(rows: seq<Row>)
    ensures Merge(rows).colors == FirstAppearances(RowColors(rows))
    ensures forall i | 0 <= i < |Merge(rows).colors| ::
              Merge(rows).triangles[i] == PointsOf(rows, Merge(rows).colors[i])
    decreases |rows|
  {
    if rows != [] {
      var n := |rows| - 1;
      var init := rows[..n];
      var last := rows[n];
      MergeSpec(init);
      var g := Merge(init);
      var cs := RowColors(rows);
      assert RowColors(init) == cs[..n];
      assert cs[n] == last.color;
      FirstAppearancesSameSet(cs[..n]);
      var i := IndexOfColor(g.colors, last.color);
      var g' := Merge(rows);
      assert g' == AddRow(g, last);
      if i < |g.colors| {
        assert last.color in cs[..n];
        forall j | 0 <= j < |g'.colors| ensures g'.triangles[j] == PointsOf(rows, g'.colors[j]) {
          assert g'.colors[j] == g.colors[j];
          if j != i {
            assert g.colors[j] != last.color;
          }
        }
      } else {
        assert last.color !in cs[..n];
        PointsOfAbsent(init, last.color);
        forall j | 0 <= j < |g'.colors| ensures g'.triangles[j] == PointsOf(rows, g'.colors[j]) {
          if j < |g.colors| {
            assert g.colors[j] != last.color;
          }
        }
      }
    }
  }

  /** The parsed store never holds a color twice. */
  lemma ParseDistinct(text: string)
    requires ParseText(text).Some?
    ensures Distinct(ParseText(text).value.colors)
    ensures |ParseText(text).value.colors| == |ParseText(text).value.triangles|
  {
  }

  predicate IntegralPoints(tris: seq<seq<Point>>) {
    forall c, i | 0 <= c < |tris| && 0 <= i < |tris[c]| ::
      IsIntegral(tris[c][i].x) && IsIntegral(tris[c][i].y)
  }

  lemma NumberHasNoSeparators(s: string)
    requires NumberChars(s)
    ensures NoWhitespace(s) && ',' !in s && '\n' !in s
  {
    forall i | 0 <= i < |s| ensures !IsWhitespace(s[i]) && s[i] != ',' && s[i] != '\n' {
      assert IsDigit(s[i]) || s[i] == '-' || s[i] == '.';
    }
  }

  lemma PointTextShape(p: Point)
    ensures |PointText(p)| > 0 && NoWhitespace(PointText(p)) && '\n' !in PointText(p)
  {
    FormatRealChars(p.x);
    FormatRealChars(p.y);
    NumberHasNoSeparators(FormatReal(p.x));
    NumberHasNoSeparators(FormatReal(p.y));
    var t := PointText(p);
    forall i | 0 <= i < |t| ensures !IsWhitespace(t[i]) && t[i] != '\n' {
      if i < |FormatReal(p.x)| {
        assert t[i] == FormatReal(p.x)[i];
      } else if i > |FormatReal(p.x)| {
        assert t[i] == FormatReal(p.y)[i - |FormatReal(p.x)| - 1];
      }
    }
  }

  lemma ParsePointText(p: Point)
    requires IsIntegral(p.x) && IsIntegral(p.y)
    ensures ParsePoint(PointText(p)) == Some(p)
  {
    var xs, ys := FormatReal(p.x), FormatReal(p.y);
    FormatRealChars(p.x);
    FormatRealChars(p.y);
    NumberHasNoSeparators(xs);
    NumberHasNoSeparators(ys);
    assert PointText(p) == xs + [','] + ys;
    SplitPair(xs, ys, ',');
    ParseFormatIntegral(p.x);
    ParseFormatIntegral(p.y);
    ParseCoordsPair(xs, ys, p.x, p.y);
  }

  /** A list of successful parses collects to their values. */
  lemma {:induction false} AllSomeOf<T>(parses: seq<Option<T>>, vals: seq<T>)
    requires |parses| == |vals|
    requires forall i | 0 <= i < |parses| :: parses[i] == Some(vals[i])
    ensures AllSome(parses) == Some(vals)
  {
    if parses != [] {
      AllSomeOf(parses[1..], vals[1..]);
      assert vals == [vals[0]] + vals[1..];
    }
  }

  /** A list of parses collects to something exactly when none of them failed. */
  lemma {:induction false} AllSomeExactly<T>(parses: seq<Option<T>>)
    ensures AllSome(parses).Some? <==> forall i | 0 <= i < |parses| :: parses[i].Some?
    ensures AllSome(parses).Some? ==> forall i | 0 <= i < |parses| :: AllSome(parses).value[i] == parses[i].value
  {
    if parses != [] {
      AllSomeExactly(parses[1..]);
    }
  }

  lemma ParseCoordsPair(a: string, b: string, x: real, y: real)
    requires ParseDecimal(a) == Some(x) && ParseDecimal(b) == Some(y)
    ensures ParseCoords([a, b]) == Some([x, y])
  {
    AllSomeOf(seq(2, i requires 0 <= i < 2 => ParseDecimal([a, b][i])), [x, y]);
  }

  lemma ParsePointTexts(pts: seq<Point>)
    requires forall i | 0 <= i < |pts| :: IsIntegral(pts[i].x) && IsIntegral(pts[i].y)
    ensures ParsePoints(PointTexts(pts)) == Some(pts)
  {
    var toks := PointTexts(pts);
    forall i | 0 <= i < |toks| ensures ParsePoint(toks[i]) == Some(pts[i]) {
      ParsePointText(pts[i]);
    }
    ParsePointsOf(toks, pts);
  }

  /** Point tokens that each parse give the list of their points. */
  lemma ParsePointsOf(toks: seq<string>, pts: seq<Point>)
    requires |toks| == |pts|
    requires forall i | 0 <= i < |toks| :: ParsePoint(toks[i]) == Some(pts[i])
    ensures ParsePoints(toks) == Some(pts)
  {
    AllSomeOf(seq(|toks|, i requires 0 <= i < |toks| => ParsePoint(toks[i])), pts);
  }

  lemma PointTextsShape(pts: seq<Point>)
    ensures forall w | w in PointTexts(pts) :: |w| > 0 && NoWhitespace(w) && '\n' !in w
  {
    var ws := PointTexts(pts);
    forall i | 0 <= i < |ws| ensures |ws[i]| > 0 && NoWhitespace(ws[i]) && '\n' !in ws[i] {
      PointTextShape(pts[i]);
    }
  }

  lemma {:induction false} JoinHasNoNewline(ws: seq<string>)
    requires forall w | w in ws :: '\n' !in w
    ensures '\n' !in Join(ws, " ")
  {
    if |ws| > 1 {
      JoinHasNoNewline(ws[1..]);
      assert ws[0] in ws;
    } else if |ws| == 1 {
      assert ws[0] in ws;
    }
  }

  lemma ColorTextShape(color: Color)
    ensures |NatToString(color)| > 0 && NoWhitespace(NatToString(color)) && '\n' !in NatToString(color)
  {
    var head := NatToString(color);
    assert NumberChars(head) by {
      forall i | 0 <= i < |head| ensures IsDigit(head[i]) {
        assert AllDigits(head);
      }
    }
    NumberHasNoSeparators(head);
  }

  lemma RowTextNoNewline(color: Color, pts: seq<Point>)
    ensures '\n' !in RowText(color, pts)
  {
    PointTextsShape(pts);
    JoinHasNoNewline(PointTexts(pts));
    ColorTextShape(color);
  }

  lemma RowTextWords(color: Color, pts: seq<Point>)
    ensures Words(RowText(color, pts)) == [NatToString(color)] + PointTexts(pts)
  {
    var head := NatToString(color);
    var ws := PointTexts(pts);
    var body := Join(ws, " ");
    assert |head| > 0 && NoWhitespace(head) by {
      ColorTextShape(color);
    }
    assert Words(body) == ws by {
      PointTextsShape(pts);
      WordsOfJoin(ws);
    }
    assert RowText(color, pts) == head + (" " + body);
    WordsCons(head, " " + body);
    assert Words(" " + body) == Words(body) by {
      assert (" " + body)[1..] == body;
    }
  }

  lemma ParseRowText(color: Color, pts: seq<Point>)
    requires forall i | 0 <= i < |pts| :: IsIntegral(pts[i].x) && IsIntegral(pts[i].y)
    ensures ParseRow(RowText(color, pts)) == Some(Row(color, pts))
  {
    RowTextWords(color, pts);
    ParseTokensOf(color, pts);
  }

  lemma ParseTokensCons(head: string, rest: seq<string>)
    ensures ParseTokens([head] + rest) ==
              if ParseU32(head).None? || ParsePoints(rest).None? then None
              else Some(Row(Low24(ParseU32(head).value), ParsePoints(rest).value))
  {
    var toks := [head] + rest;
    assert toks[0] == head;
    assert toks[1..] == rest;
  }

  lemma ParseTokensOf(color: Color, pts: seq<Point>)
    requires forall i | 0 <= i < |pts| :: IsIntegral(pts[i].x) && IsIntegral(pts[i].y)
    ensures ParseTokens([NatToString(color)] + PointTexts(pts)) == Some(Row(color, pts))
  {
    var head, rest := NatToString(color), PointTexts(pts);
    assert ParseU32(head) == Some(color) by {
      ParseU32OfNat(color);
    }
    assert ParsePoints(rest) == Some(pts) by {
      ParsePointTexts(pts);
    }
    ParseTokensCons(head, rest);
  }

  function Rows(colors: seq<Color>, tris: seq<seq<Point>>): seq<Row>
    requires |colors| == |tris|
  {
    seq(|colors|, i requires 0 <= i < |colors| => Row(colors[i], tris[i]))
  }

  /** The lines `Display` writes, one per color. */
  function RowTexts(colors: seq<Color>, tris: seq<seq<Point>>): (ls: seq<string>)
    requires |colors| == |tris|
    ensures |ls| == |colors|
    ensures forall i | 0 <= i < |ls| :: ls[i] == RowText(colors[i], tris[i])
  {
    if colors == [] then []
    else
      var tail := RowTexts(colors[1..], tris[1..]);
      assert forall i | 1 <= i < |colors| :: colors[1..][i - 1] == colors[i] && tris[1..][i - 1] == tris[i];
      [RowText(colors[0], tris[0])] + tail
  }

  lemma {:induction false} LinesOfSerialise(colors: seq<Color>, tris: seq<seq<Point>>)
    requires |colors| == |tris|
    ensures Lines(Serialise(colors, tris)) == RowTexts(colors, tris)
  {
    if colors != [] {
      var head := RowText(colors[0], tris[0]);
      var rest := Serialise(colors[1..], tris[1..]);
      assert Serialise(colors, tris) == head + "\n" + rest;
      RowTextNoNewline(colors[0], tris[0]);
      LinesCons(head, rest);
      LinesOfSerialise(colors[1..], tris[1..]);
    }
  }

  lemma {:induction false} AllRowsSome(parsed: seq<Option<Row>>, rows: seq<Row>)
    requires |parsed| == |rows|
    requires forall i | 0 <= i < |parsed| :: parsed[i] == Some(rows[i])
    ensures AllRows(parsed) == Some(rows)
    decreases |parsed|
  {
    if parsed != [] {
      var n := |parsed| - 1;
      AllRowsSome(parsed[..n], rows[..n]);
      assert rows == rows[..n] + [rows[n]];
    }
  }

  lemma {:induction false} MergeDistinctRows(colors: seq<Color>, tris: seq<seq<Point>>)
    requires |colors| == |tris| && Distinct(colors)
    ensures Merge(Rows(colors, tris)) == Geometry(colors, tris)
    decreases |colors|
  {
    if colors != [] {
      var n := |colors| - 1;
      var rows := Rows(colors, tris);
      assert rows[..n] == Rows(colors[..n], tris[..n]);
      MergeDistinctRows(colors[..n], tris[..n]);
      var i := IndexOfColor(colors[..n], colors[n]);
      assert i == n;
      assert colors == colors[..n] + [colors[n]];
      assert tris == tris[..n] + [tris[n]];
    }
  }

  /**
   * The round trip of the file format: for a store with distinct colors and
   * integral coordinates, parsing what `Display` writes gives the store back.
   */
  lemma ParseSerialise(colors: seq<Color>, tris: seq<seq<Point>>)
    requires |colors| == |tris| && Distinct(colors) && IntegralPoints(tris)
    ensures ParseText(Serialise(colors, tris)) == Some(Geometry(colors, tris))
  {
    LinesOfSerialise(colors, tris);
    var lines := RowTexts(colors, tris);
    var rows := Rows(colors, tris);
    var parsed := ParsedLines(lines);
    forall i | 0 <= i < |lines| ensures parsed[i] == Some(rows[i]) {
      ParseRowText(colors[i], tris[i]);
    }
    AllRowsSome(parsed, rows);
    MergeDistinctRows(colors, tris);
  }

  // ---------------------------------------------------------------------
  // Properties of the in-place operations
  // ---------------------------------------------------------------------

  /** Removing a triangle deletes exactly its three points and keeps whole triangles. */
  lemma WithoutTriangleSpec(pts: seq<Point>, i: nat)
    requires 3 * i + 3 <= |pts|
    ensures |WithoutTriangle(pts, i)| == |pts| - 3
    ensures |pts| % 3 == 0 ==> |WithoutTriangle(pts, i)| % 3 == 0
    ensures forall j | 0 <= j < 3 * i :: WithoutTriangle(pts, i)[j] == pts[j]
    ensures forall j | 3 * i <= j < |pts| - 3 :: WithoutTriangle(pts, i)[j] == pts[j + 3]
  {
  }

  /** Translating by (dx, dy) and then by (-dx, -dy) restores every point. */
  lemma TranslateInverse(tris: seq<seq<Point>>, dx: real, dy: real)
    ensures Translated(Translated(tris, dx, dy), -dx, -dy) == tris
  {
    var back := Translated(Translated(tris, dx, dy), -dx, -dy);
    forall c | 0 <= c < |tris| ensures back[c] == tris[c] {
      assert |back[c]| == |tris[c]|;
    }
  }

  /** Scaling by (sx, sy) and then by their reciprocals restores every point. */
  lemma ScaleInverse(tris: seq<seq<Point>>, sx: real, sy: real)
    requires sx != 0.0 && sy != 0.0
    ensures Scaled(Scaled(tris, sx, sy), 1.0 / sx, 1.0 / sy) == tris
  {
    var back := Scaled(Scaled(tris, sx, sy), 1.0 / sx, 1.0 / sy);
    forall c | 0 <= c < |tris| ensures back[c] == tris[c] {
      forall i | 0 <= i < |tris[c]| ensures back[c][i] == tris[c][i] {
        var q := tris[c][i];
        assert back[c][i] == Point(q.x * sx * (1.0 / sx), q.y * sy * (1.0 / sy));
      }
    }
  }

  /** Both transformations keep the number of colors and of points per color. */
  lemma TransformsKeepShape(tris: seq<seq<Point>>, a: real, b: real)
    ensures |Scaled(tris, a, b)| == |tris| && |Translated(tris, a, b)| == |tris|
    ensures forall c | 0 <= c < |tris| ::
              |Scaled(tris, a, b)[c]| == |tris[c]| && |Translated(tris, a, b)[c]| == |tris[c]|
    ensures Triangulated(tris) ==> Triangulated(Scaled(tris, a, b)) && Triangulated(Translated(tris, a, b))
  {
  }

  // ---------------------------------------------------------------------
  // The unit tests of src/drawing.rs
  //
  // Each test is a lemma about a concrete input. The smaller lemmas between
  // them (ThreePoints, TokensOfFour, OneLineText, TokenShape, JoinFour,
  // LineOfWords, TestTokens, TestLine and the like) only cut the proofs of
  // those tests into steps the solver can take one at a time.
  // ---------------------------------------------------------------------

  lemma FormatSmallIntegers()
    ensures FormatReal(0.0) == "0" && FormatReal(1.0) == "1"
  {
    FormatNonNegativeIntegral(0);
    FormatNonNegativeIntegral(1);
    assert NatToString(0) == "0";
    assert NatToString(1) == "1";
  }

  lemma ColorTextExample()
    ensures NatToString(255) == "255"
  {
    assert NatToString(2) == "2";
    assert NatToString(25) == NatToString(2) + "5";
    assert NatToString(255) == NatToString(25) + "5";
  }

  lemma PointTextsExample()
    ensures PointTexts([Point(0.0, 0.0), Point(1.0, 0.0), Point(1.0, 1.0)]) == ["0,0", "1,0", "1,1"]
  {
    FormatSmallIntegers();
    var pts := [Point(0.0, 0.0), Point(1.0, 0.0), Point(1.0, 1.0)];
    assert PointText(pts[0]) == "0,0";
    assert PointText(pts[1]) == "1,0";
    assert PointText(pts[2]) == "1,1";
  }

  /** The test store: one blue triangle (0,0) (1,0) (1,1), written as one line. */
  lemma SerialiseExample(pts: seq<Point>)
    requires pts == [Point(0.0, 0.0), Point(1.0, 0.0), Point(1.0, 1.0)]
    ensures Serialise([Rgb(0, 0, 255)], [pts]) == "255 0,0 1,0 1,1\n"
  {
    SerialiseOneRow(255, pts);
    RowTextExample(pts);
  }

  lemma SerialiseOneRow(color: Color, pts: seq<Point>)
    ensures Serialise([color], [pts]) == RowText(color, pts) + "\n"
  {
    assert Serialise([], []) == "";
  }

  lemma RowTextExample(pts: seq<Point>)
    requires pts == [Point(0.0, 0.0), Point(1.0, 0.0), Point(1.0, 1.0)]
    ensures RowText(255, pts) == "255 0,0 1,0 1,1"
  {
    PointTextsExample();
    ColorTextExample();
    JoinExample();
  }

  lemma JoinExample()
    ensures Join(["0,0", "1,0", "1,1"], " ") == "0,0 1,0 1,1"
  {
    assert Join(["1,1"], " ") == "1,1";
    assert Join(["1,0", "1,1"], " ") == "1,0 1,1";
  }

  /** A digit, a '.' and a zero is read as the digit's value. */
  lemma OnePlace(d: nat)
    requires d < 10
    ensures ParseDecimal([DigitChar(d), '.', '0']) == Some(d as real)
  {
    var s := [DigitChar(d), '.', '0'];
    assert IndexOf(s, '.') == 1;
    assert s[..1] == [DigitChar(d)] && s[2..] == "0";
    assert DigitsValue([DigitChar(d)]) == d by {
      assert [DigitChar(d)][..0] == [];
    }
    assert FractionValue("0") == 0.0;
  }

  /** "x.0,y.0" for digits x and y is the point (x, y). */
  lemma PointExample(x: nat, y: nat)
    requires x < 10 && y < 10
    ensures ParsePoint([DigitChar(x), '.', '0', ',', DigitChar(y), '.', '0']) == Some(Point(x as real, y as real))
  {
    var a, b := [DigitChar(x), '.', '0'], [DigitChar(y), '.', '0'];
    OnePlace(x);
    OnePlace(y);
    assert a + [','] + b == [DigitChar(x), '.', '0', ',', DigitChar(y), '.', '0'];
    SplitPair(a, b, ',');
    ParseCoordsPair(a, b, x as real, y as real);
  }

  lemma PointExamples()
    ensures ParsePoint("0.0,0.0") == Some(Point(0.0, 0.0))
    ensures ParsePoint("1.0,0.0") == Some(Point(1.0, 0.0))
    ensures ParsePoint("1.0,1.0") == Some(Point(1.0, 1.0))
  {
    assert DigitChar(0) == '0' && DigitChar(1) == '1';
    PointExample(0, 0);
    PointExample(1, 0);
    PointExample(1, 1);
  }

  /** Three point tokens that each parse. */
  lemma ThreePoints(t1: string, t2: string, t3: string, pts: seq<Point>)
    requires |pts| == 3
    requires ParsePoint(t1) == Some(pts[0]) && ParsePoint(t2) == Some(pts[1]) && ParsePoint(t3) == Some(pts[2])
    ensures ParsePoints([t1, t2, t3]) == Some(pts)
  {
    ParsePointsOf([t1, t2, t3], pts);
  }

  /** A line of a color token and three point tokens. */
  lemma TokensOfFour(t0: string, t1: string, t2: string, t3: string, color: nat, pts: seq<Point>)
    requires color < 0x100_0000 && ParseU32(t0) == Some(color)
    requires ParsePoints([t1, t2, t3]) == Some(pts)
    ensures ParseTokens([t0, t1, t2, t3]) == Some(Row(color, pts))
  {
    assert [t0, t1, t2, t3] == [t0] + [t1, t2, t3];
    ParseTokensCons(t0, [t1, t2, t3]);
  }

  /** A text of one line parses as that line's row. */
  lemma OneLineText(line: string, row: Row)
    requires Lines(line + "\n") == [line] && ParseRow(line) == Some(row)
    ensures ParseText(line + "\n") == Some(Geometry([row.color], [row.points]))
  {
    var parsed := ParsedLines([line]);
    assert parsed[0] == ParseRow(line);
    assert parsed == [Some(row)];
    assert AllRows([Some(row)]) == Some([row]) by {
      assert [Some(row)][..0] == [];
      assert AllRows([]) == Some([]);
      assert [] + [row] == [row];
    }
    assert Merge([row]) == Geometry([row.color], [row.points]) by {
      assert [row][..0] == [];
      assert Merge([]) == Geometry([], []);
      assert [] + [row.color] == [row.color] && [] + [row.points] == [row.points];
    }
  }

  /** The characters of a written number, and the comma between coordinates. */
  predicate TokenChars(t: string) {
    forall i | 0 <= i < |t| :: IsDigit(t[i]) || t[i] == '.' || t[i] == ','
  }

  lemma TokenShape(t: string)
    requires TokenChars(t)
    ensures NoWhitespace(t) && '\n' !in t
  {
    forall i | 0 <= i < |t| ensures !IsWhitespace(t[i]) && t[i] != '\n' {
      assert IsDigit(t[i]) || t[i] == '.' || t[i] == ',';
    }
  }

  lemma TokensShape(toks: seq<string>)
    requires toks == ["255", "0.0,0.0", "1.0,0.0", "1.0,1.0"]
    ensures forall w | w in toks :: |w| > 0 && NoWhitespace(w) && '\n' !in w
  {
    forall w | w in toks ensures |w| > 0 && NoWhitespace(w) && '\n' !in w {
      assert TokenChars(w);
      TokenShape(w);
    }
  }

  lemma JoinCons(w: string, ws: seq<string>)
    requires ws != []
    ensures Join([w] + ws, " ") == w + " " + Join(ws, " ")
  {
    assert ([w] + ws)[1..] == ws;
  }

  lemma JoinFour(a: string, b: string, c: string, d: string)
    ensures Join([a, b, c, d], " ") == a + " " + (b + " " + (c + " " + d))
  {
    JoinCons(c, [d]);
    assert [c] + [d] == [c, d];
    JoinCons(b, [c, d]);
    assert [b] + [c, d] == [b, c, d];
    JoinCons(a, [b, c, d]);
    assert [a] + [b, c, d] == [a, b, c, d];
  }

  lemma LineSpelled(a: string, b: string, c: string, d: string)
    requires a == "255" && b == "0.0,0.0" && c == "1.0,0.0" && d == "1.0,1.0"
    ensures a + " " + (b + " " + (c + " " + d)) + "\n" == "255 0.0,0.0 1.0,0.0 1.0,1.0\n"
  {
  }

  /** The words of a line that has no line break, and the line itself. */
  lemma LineOfWords(toks: seq<string>, line: string)
    requires line == Join(toks, " ")
    requires forall w | w in toks :: |w| > 0 && NoWhitespace(w) && '\n' !in w
    ensures Lines(line + "\n") == [line] && Words(line) == toks
  {
    WordsOfJoin(toks);
    JoinHasNoNewline(toks);
    LinesCons(line, "");
    assert line + "\n" + "" == line + "\n";
  }

  /** The tokens of the test file's line parse as one row. */
  lemma TestTokens(a: string, b: string, c: string, d: string, pts: seq<Point>)
    requires a == "255" && b == "0.0,0.0" && c == "1.0,0.0" && d == "1.0,1.0"
    requires pts == [Point(0.0, 0.0), Point(1.0, 0.0), Point(1.0, 1.0)]
    ensures ParseTokens([a, b, c, d]) == Some(Row(255, pts))
  {
    assert ParseU32(a) == Some(255) by {
      ColorTextExample();
      ParseU32OfNat(255);
    }
    PointExamples();
    ThreePoints(b, c, d, pts);
    TokensOfFour(a, b, c, d, 255, pts);
  }

  /** The line of the test file splits into its four tokens, and is the file's only line. */
  lemma TestLine(a: string, b: string, c: string, d: string)
    requires a == "255" && b == "0.0,0.0" && c == "1.0,0.0" && d == "1.0,1.0"
    ensures var line := Join([a, b, c, d], " ");
            Lines(line + "\n") == [line] && Words(line) == [a, b, c, d]
  {
    TokensShape([a, b, c, d]);
    LineOfWords([a, b, c, d], Join([a, b, c, d], " "));
  }

  /** The test file: one line, color 255 and the points (0,0) (1,0) (1,1) written with decimals. */
  lemma ParseTextExample(text: string)
    requires text == "255 0.0,0.0 1.0,0.0 1.0,1.0\n"
    ensures ParseText(text) ==
              Some(Geometry([Rgb(0, 0, 255)], [[Point(0.0, 0.0), Point(1.0, 0.0), Point(1.0, 1.0)]]))
  {
    var a, b, c, d := "255", "0.0,0.0", "1.0,0.0", "1.0,1.0";
    var line := Join([a, b, c, d], " ");
    JoinFour(a, b, c, d);
    LineSpelled(a, b, c, d);
    var pts := [Point(0.0, 0.0), Point(1.0, 0.0), Point(1.0, 1.0)];
    TestLine(a, b, c, d);
    TestTokens(a, b, c, d, pts);
    OneLineText(line, Row(255, pts));
  }
}
