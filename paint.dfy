/**
 * The triangle editor of src/lib.rs (`Paint`): left clicks collect the
 * corners of a triangle in a working polygon and commit it to the current
 * color on the third click; keys switch the color, toggle snapping and
 * wireframe, delete the triangle under the cursor, and move or zoom the
 * whole drawing.
 *
 * The editor's observable state is captured as a `Canvas` value; each event
 * method is proved to leave the state that a pure function of the old state
 * describes, and the properties of those functions follow as lemmas.
 */
module Editor {
  import opened Wrappers
  import opened Events
  import opened Drawing

  /** Everything the editor's events read or change. */
  datatype Canvas = Canvas(
    colors: seq<Color>,
    triangles: seq<seq<Point>>,
    poly: seq<Point>,
    cur_color: nat,
    m_pos: Point,
    snap_dist: real,
    use_snap: bool,
    wireframe: bool)

  /**
   * One vertex list per distinct color, at least one color and the current
   * one among them, at most two buffered corners, and whole triangles only.
   */
  predicate Consistent(s: Canvas) {
    |s.colors| == |s.triangles| && Distinct(s.colors)
    && |s.colors| > 0 && s.cur_color < |s.colors|
    && |s.poly| <= 2 && Triangulated(s.triangles)
  }

  // ---------------------------------------------------------------------
  // Building the editor
  // ---------------------------------------------------------------------

  /** The colors named by `hexes`, each of which must be a valid color string. */
  function ParsedColors(hexes: seq<string>): seq<Color>
    requires forall i | 0 <= i < |hexes| :: Str2Col(hexes[i]).Some?
  {
    seq<Color>(|hexes|, (i: int) requires 0 <= i < |hexes| => ColorOf(hexes[i]))
  }

  function ColorOf(hex: string): Color
    requires Str2Col(hex).Some?
  {
    Str2Col(hex).value
  }

  /** The store after `add_color` of color `c`, as a value. */
  function AddedColor(g: Geometry, c: Color): (r: Geometry)
    requires |g.colors| == |g.triangles|
    ensures |r.colors| == |r.triangles|
  {
    if c in g.colors then g
    else Geometry(g.colors + [c], g.triangles + [[]])
  }

  /** The store after `add_color` of each of `cs` in turn. */
  function WithColors(g: Geometry, cs: seq<Color>): (r: Geometry)
    requires |g.colors| == |g.triangles|
    ensures |r.colors| == |r.triangles|
    decreases |cs|
  {
    if cs == [] then g
    else AddedColor(WithColors(g, cs[..|cs| - 1]), cs[|cs| - 1])
  }

  /**
   * Adding colors keeps the loaded store as a prefix, gives every new color
   * an empty vertex list, never duplicates a color, and ends with every
   * requested color present. At most one list is added per requested color.
   */
  lemma {:induction false} WithColorsSpec(g: Geometry, cs: seq<Color>)
    requires |g.colors| == |g.triangles| && Distinct(g.colors)
    ensures Distinct(WithColors(g, cs).colors)
    ensures |g.colors| <= |WithColors(g, cs).colors| <= |g.colors| + |cs|
    ensures WithColors(g, cs).colors[..|g.colors|] == g.colors
    ensures WithColors(g, cs).triangles[..|g.triangles|] == g.triangles
    ensures forall j | |g.colors| <= j < |WithColors(g, cs).colors| :: WithColors(g, cs).triangles[j] == []
    ensures forall c | c in cs :: c in WithColors(g, cs).colors
    decreases |cs|
  {
    if cs != [] {
      var n := |cs| - 1;
      var init := cs[..n];
      WithColorsSpec(g, init);
      var r0 := WithColors(g, init);
      var r := WithColors(g, cs);
      assert r == AddedColor(r0, cs[n]);
      if r != r0 {
        assert r.colors[..|g.colors|] == r0.colors[..|g.colors|];
        assert r.triangles[..|g.triangles|] == r0.triangles[..|g.triangles|];
        forall j | |g.colors| <= j < |r.colors| ensures r.triangles[j] == [] {
          if j < |r0.colors| {
            assert r.triangles[j] == r0.triangles[j];
          }
        }
      }
      forall c | c in cs ensures c in r.colors {
        if c != cs[n] {
          assert c in init;
        }
      }
    }
  }

  /** Adding colors to a store of whole triangles keeps it so. */
  lemma WithColorsTriangulated(g: Geometry, cs: seq<Color>)
    requires |g.colors| == |g.triangles| && Distinct(g.colors) && Triangulated(g.triangles)
    ensures Triangulated(WithColors(g, cs).triangles)
  {
    WithColorsSpec(g, cs);
    var r := WithColors(g, cs);
    forall c | 0 <= c < |r.triangles| ensures |r.triangles[c]| % 3 == 0 {
      if c < |g.triangles| {
        assert r.triangles[c] == r.triangles[..|g.triangles|][c];
      }
    }
  }

  /** The parsed drawing, scaled to a `w` by `h` area unless it is absolute. */
  function Loaded(g: Geometry, read_absolute: bool, w: real, h: real): Geometry {
    if read_absolute then g else Geometry(g.colors, Scaled(g.triangles, w, h))
  }

  /** A loaded drawing of whole triangles, with at least one color once the requested ones are added, is a consistent start. */
  lemma StartConsistent(g: Geometry, read_absolute: bool, w: real, h: real, cs: seq<Color>)
    requires |g.colors| == |g.triangles| && Distinct(g.colors) && Triangulated(g.triangles)
    requires |cs| > 0 || |g.colors| > 0
    ensures var r := WithColors(Loaded(g, read_absolute, w, h), cs);
            Consistent(Canvas(r.colors, r.triangles, [], 0, Point(0.0, 0.0), 10.0, true, false))
  {
    var loaded := Loaded(g, read_absolute, w, h);
    TransformsKeepShape(g.triangles, w, h);
    WithColorsSpec(loaded, cs);
    WithColorsTriangulated(loaded, cs);
    if |cs| > 0 {
      assert cs[0] in cs;
    }
  }

  /**
   * The drawing `Paint::new` opens: the text `data` parsed and loaded into a
   * `w` by `h` area, then each of `colors` added.
   */
  function Opened(data: string, colors: seq<string>, read_absolute: bool, w: real, h: real): Geometry
    requires ParseText(data).Some?
    requires forall i | 0 <= i < |colors| :: Str2Col(colors[i]).Some?
  {
    WithColors(Loaded(ParseText(data).value, read_absolute, w, h), ParsedColors(colors))
  }

  /** A file of whole triangles with at least one color among it and the requested ones opens consistently. */
  lemma OpenedConsistent(data: string, colors: seq<string>, read_absolute: bool, w: real, h: real)
    requires ParseText(data).Some? && Triangulated(ParseText(data).value.triangles)
    requires forall i | 0 <= i < |colors| :: Str2Col(colors[i]).Some?
    requires |colors| > 0 || |ParseText(data).value.colors| > 0
    ensures var r := Opened(data, colors, read_absolute, w, h);
            Consistent(Canvas(r.colors, r.triangles, [], 0, Point(0.0, 0.0), 10.0, true, false))
  {
    ParseDistinct(data);
    StartConsistent(ParseText(data).value, read_absolute, w, h, ParsedColors(colors));
  }

  // ---------------------------------------------------------------------
  // Mouse
  // ---------------------------------------------------------------------

  /**
   * Where a click at `p` lands: with snapping on, the stored point nearest
   * to `p` when its squared distance is at most `snap_dist` squared;
   * otherwise `p` itself.
   */
  function SnapTarget(tris: seq<seq<Point>>, p: Point, use_snap: bool, snap_dist: real): Point {
    if use_snap then
      var near := Nearest(tris, 1, p);
      if |near| > 0 && near[0].dist <= snap_dist * snap_dist then tris[near[0].color][near[0].index] else p
    else p
  }

  /** Some stored point lies within snapping distance of `p`. */
  predicate InReach(tris: seq<seq<Point>>, p: Point, snap_dist: real) {
    exists c, i | 0 <= c < |tris| && 0 <= i < |tris[c]| :: SqDist(tris[c][i], p) <= snap_dist * snap_dist
  }

  /** A store with a point at (c, i) has at least one point. */
  lemma PointCounted(tris: seq<seq<Point>>, p: Point, c: nat, i: nat)
    requires c < |tris| && i < |tris[c]|
    ensures TotalPoints(tris) > 0
  {
    DistancesSpec(tris, p);
    assert Near(c, i, SqDist(tris[c][i], p)) in Distances(tris, p);
  }

  /**
   * Snapping moves a click exactly when snapping is on and some stored point
   * is within reach; it then lands on a stored point no farther from the
   * click than any other stored point, the first enumerated one on a tie.
   */
  lemma SnapTargetSpec(tris: seq<seq<Point>>, p: Point, use_snap: bool, snap_dist: real)
    ensures !(use_snap && InReach(tris, p, snap_dist)) ==> SnapTarget(tris, p, use_snap, snap_dist) == p
    ensures use_snap && InReach(tris, p, snap_dist) ==>
              exists c, i | 0 <= c < |tris| && 0 <= i < |tris[c]| ::
                SnapTarget(tris, p, use_snap, snap_dist) == tris[c][i]
                && SqDist(tris[c][i], p) <= snap_dist * snap_dist
                && (forall d, j | 0 <= d < |tris| && 0 <= j < |tris[d]| :: SqDist(tris[c][i], p) <= SqDist(tris[d][j], p))
                && forall d, j | 0 <= d < |tris| && 0 <= j < |tris[d]| && SqDist(tris[d][j], p) == SqDist(tris[c][i], p) ::
                     c < d || (c == d && i <= j)
  {
    if use_snap {
      var near := Nearest(tris, 1, p);
      if InReach(tris, p, snap_dist) {
        var c, i :| 0 <= c < |tris| && 0 <= i < |tris[c]| && SqDist(tris[c][i], p) <= snap_dist * snap_dist;
        PointCounted(tris, p, c, i);
        assert |near| == 1;
        var e := near[0];
        assert ValidNear(tris, p, e);
        forall d, j | 0 <= d < |tris| && 0 <= j < |tris[d]|
          ensures e == Near(d, j, SqDist(tris[d][j], p)) || Before(e, Near(d, j, SqDist(tris[d][j], p)))
        {
          if Near(d, j, SqDist(tris[d][j], p)) in near {
            assert near[0] == Near(d, j, SqDist(tris[d][j], p));
          }
        }
        assert e.dist <= SqDist(tris[c][i], p);
      } else if |near| > 0 {
        var e := near[0];
        assert ValidNear(tris, p, e);
        assert !(e.dist <= snap_dist * snap_dist);
      }
    }
  }

  /**
   * `mouse_button_down_event` at window position (x, y): the click, moved by
   * the margin and snapped, is a new corner on a left click; the third corner
   * commits the triangle to the current color and empties the polygon.
   * Other buttons change nothing.
   */
  function Clicked(s: Canvas, b: MouseButton, x: real, y: real, margin: real): (r: Canvas)
    requires Consistent(s)
    ensures Consistent(r)
  {
    var q := SnapTarget(s.triangles, Point(x - margin, y - margin), s.use_snap, s.snap_dist);
    if b == Left && |s.poly| <= 1 then s.(poly := s.poly + [q])
    else if b == Left && |s.poly| == 2 then
      var t := s.triangles[s.cur_color := s.triangles[s.cur_color] + s.poly + [q]];
      assert |t[s.cur_color]| == |s.triangles[s.cur_color]| + 3;
      assert forall c | 0 <= c < |t| && c != s.cur_color :: t[c] == s.triangles[c];
      s.(triangles := t, poly := [])
    else s
  }

  /** A click changes only the polygon and the current color's vertex list, which can only grow. */
  lemma ClickTouchesPolygon(s: Canvas, b: MouseButton, x: real, y: real, margin: real)
    requires Consistent(s)
    ensures var r := Clicked(s, b, x, y, margin);
            r.(triangles := s.triangles, poly := s.poly) == s
            && |r.triangles| == |s.triangles|
            && (forall c | 0 <= c < |s.triangles| && c != s.cur_color :: r.triangles[c] == s.triangles[c])
            && s.triangles[s.cur_color] <= r.triangles[s.cur_color]
  {
  }

  /** Buttons other than the left one change nothing. */
  lemma OtherButtonsIgnored(s: Canvas, b: MouseButton, x: real, y: real, margin: real)
    requires Consistent(s) && b != Left
    ensures Clicked(s, b, x, y, margin) == s
  {
  }

  /**
   * Three left clicks on an empty polygon add exactly one triangle, made of
   * the three snapped click positions in click order, to the current color.
   */
  lemma ThreeClicks(s: Canvas, x1: real, y1: real, x2: real, y2: real, x3: real, y3: real, margin: real)
    requires Consistent(s) && s.poly == []
    ensures var s3 := Clicked(Clicked(Clicked(s, Left, x1, y1, margin), Left, x2, y2, margin), Left, x3, y3, margin);
            var q1 := SnapTarget(s.triangles, Point(x1 - margin, y1 - margin), s.use_snap, s.snap_dist);
            var q2 := SnapTarget(s.triangles, Point(x2 - margin, y2 - margin), s.use_snap, s.snap_dist);
            var q3 := SnapTarget(s.triangles, Point(x3 - margin, y3 - margin), s.use_snap, s.snap_dist);
            s3 == s.(triangles := s.triangles[s.cur_color := s.triangles[s.cur_color] + [q1, q2, q3]])
  {
    var q1 := SnapTarget(s.triangles, Point(x1 - margin, y1 - margin), s.use_snap, s.snap_dist);
    var q2 := SnapTarget(s.triangles, Point(x2 - margin, y2 - margin), s.use_snap, s.snap_dist);
    var q3 := SnapTarget(s.triangles, Point(x3 - margin, y3 - margin), s.use_snap, s.snap_dist);
    var s1 := Clicked(s, Left, x1, y1, margin);
    assert s1 == s.(poly := [q1]);
    var s2 := Clicked(s1, Left, x2, y2, margin);
    assert s2 == s.(poly := [q1, q2]);
    assert s.triangles[s.cur_color] + [q1, q2] + [q3] == s.triangles[s.cur_color] + [q1, q2, q3];
  }

  // ---------------------------------------------------------------------
  // Keys
  // ---------------------------------------------------------------------

  /** The key that ends the editor: Escape with no corner buffered. */
  predicate Quits(s: Canvas, k: Key) {
    k == Escape && s.poly == []
  }

  /** The keys that pan or zoom the drawing. */
  predicate MovesView(k: Key) {
    k == H || k == J || k == K || k == L || k == I || k == O
  }

  /** The zoom factor of `I`; `O` zooms by its inverse. */
  const ZOOM: real := 1.25

  /**
   * `key_down_event`: the new state after key `k`. Escape drops a
   * half-built triangle; with none, the editor quits and its state stays
   * as it is (the save to file is not part of this model).
   */
  function KeyEffect(s: Canvas, k: Key): (r: Canvas)
    requires Consistent(s)
    ensures Consistent(r)
    ensures r.colors == s.colors && r.m_pos == s.m_pos && |r.triangles| == |s.triangles|
  {
    match k
    case Escape => s.(poly := [])
    case N => s.(cur_color := (s.cur_color + 1) % |s.colors|)
    case S => s.(use_snap := !s.use_snap)
    case W => s.(wireframe := !s.wireframe)
    case X =>
      var hit := Colliding(s.triangles, s.m_pos);
      if hit.Some? then
        var c := hit.value.0;
        var r := s.(triangles := s.triangles[c := WithoutTriangle(s.triangles[c], hit.value.1)]);
        WithoutTriangleSpec(s.triangles[c], hit.value.1);
        assert forall d | 0 <= d < |r.triangles| && d != c :: r.triangles[d] == s.triangles[d];
        r
      else s
    case Equals => s.(snap_dist := s.snap_dist + 1.0)
    case Subtract => s.(snap_dist := s.snap_dist - 1.0)
    case H => TransformsKeepShape(s.triangles, -s.snap_dist, 0.0); s.(triangles := Translated(s.triangles, -s.snap_dist, 0.0))
    case J => TransformsKeepShape(s.triangles, 0.0, s.snap_dist); s.(triangles := Translated(s.triangles, 0.0, s.snap_dist))
    case K => TransformsKeepShape(s.triangles, 0.0, -s.snap_dist); s.(triangles := Translated(s.triangles, 0.0, -s.snap_dist))
    case L => TransformsKeepShape(s.triangles, s.snap_dist, 0.0); s.(triangles := Translated(s.triangles, s.snap_dist, 0.0))
    case I => TransformsKeepShape(s.triangles, ZOOM, ZOOM); s.(triangles := Scaled(s.triangles, ZOOM, ZOOM))
    case O => TransformsKeepShape(s.triangles, 1.0 / ZOOM, 1.0 / ZOOM); s.(triangles := Scaled(s.triangles, 1.0 / ZOOM, 1.0 / ZOOM))
    case _ => s
  }

  /** `X` deletes exactly the first triangle under the cursor, and nothing when there is none. */
  lemma DeleteUnderCursor(s: Canvas)
    requires Consistent(s)
    ensures var r := KeyEffect(s, X);
            ((forall c: nat, t: nat :: !HitAt(s.triangles, s.m_pos, c, t)) ==> r == s)
            && ((exists c: nat, t: nat :: HitAt(s.triangles, s.m_pos, c, t)) ==>
                  exists c: nat, t: nat | HitAt(s.triangles, s.m_pos, c, t) ::
                    (forall d: nat, u: nat | HitAt(s.triangles, s.m_pos, d, u) :: c < d || (c == d && t <= u))
                    && r == s.(triangles := s.triangles[c := WithoutTriangle(s.triangles[c], t)])
                    && |r.triangles[c]| == |s.triangles[c]| - 3)
  {
    var hit := Colliding(s.triangles, s.m_pos);
    if hit.Some? {
      WithoutTriangleSpec(s.triangles[hit.value.0], hit.value.1);
    }
  }

  /** Moving left then right, or down then up, by the snapping distance restores the drawing. */
  lemma PanRestores(s: Canvas)
    requires Consistent(s)
    ensures KeyEffect(KeyEffect(s, H), L) == s
    ensures KeyEffect(KeyEffect(s, J), K) == s
  {
    TranslateInverse(s.triangles, -s.snap_dist, 0.0);
    assert - -s.snap_dist == s.snap_dist && -0.0 == 0.0;
    TranslateInverse(s.triangles, 0.0, s.snap_dist);
  }

  /** Zooming in and then out restores the drawing exactly (over the reals). */
  lemma ZoomRestores(s: Canvas)
    requires Consistent(s)
    ensures KeyEffect(KeyEffect(s, I), O) == s
    ensures KeyEffect(KeyEffect(s, O), I) == s
  {
    ScaleInverse(s.triangles, ZOOM, ZOOM);
    ScaleInverse(s.triangles, 1.0 / ZOOM, 1.0 / ZOOM);
    assert 1.0 / (1.0 / ZOOM) == ZOOM;
  }

  /** The toggles and the snapping-distance keys undo themselves. */
  lemma TogglesRestore(s: Canvas)
    requires Consistent(s)
    ensures KeyEffect(KeyEffect(s, S), S) == s
    ensures KeyEffect(KeyEffect(s, W), W) == s
    ensures KeyEffect(KeyEffect(s, Equals), Subtract) == s
  {
  }

  /** Escape with a corner buffered drops the polygon and nothing else and does not quit; a second Escape quits. */
  lemma EscapeDiscards(s: Canvas)
    requires Consistent(s) && s.poly != []
    ensures !Quits(s, Escape)
    ensures KeyEffect(s, Escape) == s.(poly := [])
    ensures Quits(KeyEffect(s, Escape), Escape)
  {
  }

  /** The state after pressing `N` n times. */
  function PressN(s: Canvas, n: nat): (r: Canvas)
    requires Consistent(s)
    ensures Consistent(r) && r.colors == s.colors
    decreases n
  {
    if n == 0 then s
    else
      KeyEffect(PressN(s, n - 1), N)
  }

  /** `N` walks the colors in a cycle: after n presses the current color is n further on. */
  lemma {:induction false} ColorCycle(s: Canvas, n: nat)
    requires Consistent(s)
    ensures PressN(s, n).cur_color == (s.cur_color + n) % |s.colors|
    ensures PressN(s, n).(cur_color := s.cur_color) == s
    decreases n
  {
    if n > 0 {
      ColorCycle(s, n - 1);
      var m := |s.colors|;
      var c := s.cur_color + n - 1;
      assert ((c % m) + 1) % m == (c + 1) % m by {
        ModSucc(c, m);
      }
    }
  }

  lemma ModSucc(c: nat, m: nat)
    requires m > 0
    ensures ((c % m) + 1) % m == (c + 1) % m
  {
    var q, r := c / m, c % m;
    if r + 1 == m {
      ModUnique(c + 1, m, q + 1, 0);
      ModUnique(r + 1, m, 1, 0);
    } else {
      ModUnique(c + 1, m, q, r + 1);
      ModUnique(r + 1, m, 0, r + 1);
    }
  }

  /** The remainder is the unique r in [0, m) with a == q * m + r. */
  lemma ModUnique(a: int, m: int, q: int, r: int)
    requires m > 0 && 0 <= r < m && a == q * m + r
    ensures a % m == r
  {
    var q0, r0 := a / m, a % m;
    assert (q0 - q) * m == r - r0;
    if q0 > q {
      MulAtLeast(q0 - q, m);
    } else if q0 < q {
      MulAtLeast(q - q0, m);
    }
  }

  lemma MulAtLeast(d: int, m: int)
    requires d >= 1 && m > 0
    ensures d * m >= m
  {
    assert d * m == (d - 1) * m + m;
  }

  /** Pressing `N` once per color comes back to the starting color. */
  lemma ColorRoundTrip(s: Canvas)
    requires Consistent(s)
    ensures PressN(s, |s.colors|) == s
  {
    var m := |s.colors|;
    var r := PressN(s, m);
    assert r.cur_color == s.cur_color && r.(cur_color := s.cur_color) == s by {
      ColorCycle(s, m);
      ModSucc0(s.cur_color, m);
    }
  }

  lemma ModSucc0(c: nat, m: nat)
    requires c < m
    ensures (c + m) % m == c
  {
    assert c + m == 1 * m + c;
  }

  // ---------------------------------------------------------------------
  // The editor
  // ---------------------------------------------------------------------

  class Paint {
    /** The drawing being edited. */
    const ct: ColoredTriangles
    /** The corners of the triangle being built. */
    var poly: seq<Point>
    /** Index of the color new triangles get. */
    var cur_color: nat
    /** Cursor position, relative to the drawing area. */
    var m_pos: Point
    /** Whether the drawing is saved as is or normalised to the unit square. */
    const write_absolute: bool
    /** Width of the border around the drawing area. */
    const margin: real
    var snap_dist: real
    var use_snap: bool
    var wireframe: bool
    /** Where the drawing is loaded from and saved to. */
    const filename: string

    ghost function Snapshot(): Canvas
      reads this, ct
    {
      Canvas(ct.colors, ct.triangles, poly, cur_color, m_pos, snap_dist, use_snap, wireframe)
    }

    ghost predicate Valid()
      reads this, ct
    {
      ct.Valid() && Consistent(Snapshot())
    }

    /**
     * The drawing `Paint::new` starts from: `data` parsed, scaled from the
     * unit square to a `w` by `h` drawing area unless it was stored in
     * absolute coordinates, and each of `colors` added.
     */
    static method Load(data: string, colors: seq<string>, read_absolute: bool, w: real, h: real)
      returns (store: ColoredTriangles)
      requires ParseText(data).Some?
      requires forall i | 0 <= i < |colors| :: Str2Col(colors[i]).Some?
      ensures fresh(store) && store.Valid()
      ensures Geometry(store.colors, store.triangles) == Opened(data, colors, read_absolute, w, h)
    {
      var parsed := ColoredTriangles.FromText(data);
      store := parsed.value;
      if !read_absolute {
        store.Scale(w, h);
      }
      assert Geometry(store.colors, store.triangles) == Loaded(ParseText(data).value, read_absolute, w, h);
      AddColors(store, colors);
    }

    /** The loop of `Paint::new` that calls `add_color` for each configured color. */
    static method AddColors(store: ColoredTriangles, colors: seq<string>)
      requires store.Valid()
      requires forall i | 0 <= i < |colors| :: Str2Col(colors[i]).Some?
      modifies store
      ensures store.Valid()
      ensures Geometry(store.colors, store.triangles) ==
                WithColors(old(Geometry(store.colors, store.triangles)), ParsedColors(colors))
    {
      ghost var start := Geometry(store.colors, store.triangles);
      ghost var cs := ParsedColors(colors);
      for i := 0 to |colors|
        invariant store.Valid()
        invariant Geometry(store.colors, store.triangles) == WithColors(start, cs[..i])
      {
        ghost var before := Geometry(store.colors, store.triangles);
        var _ := store.AddColor(colors[i]);
        assert Geometry(store.colors, store.triangles) == AddedColor(before, cs[i]);
        assert cs[..i + 1][..i] == cs[..i];
      }
      assert cs[..|colors|] == cs;
    }

    /**
     * `Paint::new`: `data` is the text of the file (empty when it cannot be
     * read), and `width` and `height` the window size. The source panics on a
     * malformed file or color string, hence the preconditions.
     */
    constructor (margin: real, colors: seq<string>, data: string, filename: string,
                 read_absolute: bool, write_absolute: bool, width: real, height: real)
      requires ParseText(data).Some? && Triangulated(ParseText(data).value.triangles)
      requires forall i | 0 <= i < |colors| :: Str2Col(colors[i]).Some?
      requires |colors| > 0 || |ParseText(data).value.colors| > 0
      ensures Valid() && fresh(ct)
      ensures Geometry(ct.colors, ct.triangles) == Opened(data, colors, read_absolute, width - 2.0 * margin, height - 2.0 * margin)
      ensures poly == [] && cur_color == 0 && m_pos == Point(0.0, 0.0)
      ensures snap_dist == 10.0 && use_snap && !wireframe
      ensures this.margin == margin && this.write_absolute == write_absolute && this.filename == filename
    {
      var w, h := width - 2.0 * margin, height - 2.0 * margin;
      var store := Load(data, colors, read_absolute, w, h);
      assert store.Valid() && Consistent(Canvas(store.colors, store.triangles, [], 0, Point(0.0, 0.0), 10.0, true, false)) by {
        OpenedConsistent(data, colors, read_absolute, w, h);
      }
      ct := store;
      poly := [];
      cur_color := 0;
      m_pos := Point(0.0, 0.0);
      this.write_absolute := write_absolute;
      this.margin := margin;
      snap_dist := 10.0;
      use_snap := true;
      wireframe := false;
      this.filename := filename;
    }

    /** `mouse_motion_event`: the cursor follows the mouse, moved by the margin. */
    method MouseMotion(x: real, y: real)
      requires Valid()
      modifies this
      ensures Valid()
      ensures Snapshot() == old(Snapshot()).(m_pos := Point(x - margin, y - margin))
    {
      m_pos := Point(x - margin, y - margin);
    }

    /** `mouse_button_down_event`, proved against `Clicked`. */
    method MouseButtonDown(b: MouseButton, x: real, y: real)
      requires Valid()
      modifies this, ct
      ensures Valid()
      ensures Snapshot() == Clicked(old(Snapshot()), b, x, y, margin)
    {
      ghost var before := Snapshot();
      var p := Point(x - margin, y - margin);
      if use_snap {
        var near := ct.triangles;
        var nearest := Nearest(near, 1, p);
        if |nearest| > 0 && nearest[0].dist <= snap_dist * snap_dist {
          p := near[nearest[0].color][nearest[0].index];
        }
      }
      assert p == SnapTarget(before.triangles, Point(x - margin, y - margin), before.use_snap, before.snap_dist);
      if b == Left && |poly| <= 1 {
        poly := poly + [p];
      } else if b == Left && |poly| == 2 {
        ct.triangles := ct.triangles[cur_color := ct.triangles[cur_color] + poly + [p]];
        poly := [];
      }
    }

    /**
     * `key_down_event`, proved against `KeyEffect`; `quit` says whether the
     * editor asked the application to end.
     */
    method KeyDown(k: Key) returns (quit: bool)
      requires Valid()
      modifies this, ct
      ensures Valid()
      ensures Snapshot() == KeyEffect(old(Snapshot()), k)
      ensures quit == Quits(old(Snapshot()), k)
    {
      quit := false;
      if k == X {
        DeleteHit();
      } else if MovesView(k) {
        MoveView(k);
      } else {
        quit := Setting(k);
      }
    }

    /** `X`: removes the first triangle under the cursor, if any. */
    method DeleteHit()
      requires Valid()
      modifies ct
      ensures Valid()
      ensures Snapshot() == KeyEffect(old(Snapshot()), X)
    {
      ghost var after := KeyEffect(Snapshot(), X);
      var hit := Colliding(ct.triangles, m_pos);
      if hit.Some? {
        ct.RemoveTriangle(hit.value.0, hit.value.1);
      }
      assert Snapshot() == after;
    }

    /** The arrow keys of the editor and its two zoom keys. */
    method MoveView(k: Key)
      requires Valid() && MovesView(k)
      modifies ct
      ensures Valid()
      ensures Snapshot() == KeyEffect(old(Snapshot()), k)
    {
      if k == H {
        Pan(-snap_dist, 0.0);
      } else if k == J {
        Pan(0.0, snap_dist);
      } else if k == K {
        Pan(0.0, -snap_dist);
      } else if k == L {
        Pan(snap_dist, 0.0);
      } else if k == I {
        Zoom(ZOOM);
      } else {
        Zoom(1.0 / ZOOM);
      }
    }

    /** The keys that change only the editor's own settings, and Escape. */
    method Setting(k: Key) returns (quit: bool)
      requires Valid() && k != X && !MovesView(k)
      modifies this
      ensures Valid()
      ensures Snapshot() == KeyEffect(old(Snapshot()), k)
      ensures quit == Quits(old(Snapshot()), k)
    {
      ghost var after := KeyEffect(Snapshot(), k);
      quit := false;
      match k {
        case Escape =>
          if poly != [] {
            poly := [];
          } else {
            quit := true;
          }
        case N =>
          cur_color := (cur_color + 1) % |ct.colors|;
        case S =>
          use_snap := !use_snap;
        case W =>
          wireframe := !wireframe;
        case Equals =>
          snap_dist := snap_dist + 1.0;
        case Subtract =>
          snap_dist := snap_dist - 1.0;
        case _ =>
      }
      assert Snapshot() == after;
    }

    /** Moves the whole drawing by (dx, dy). */
    method Pan(dx: real, dy: real)
      requires Valid()
      modifies ct
      ensures Valid()
      ensures Snapshot() == old(Snapshot()).(triangles := Translated(old(ct.triangles), dx, dy))
    {
      TransformsKeepShape(ct.triangles, dx, dy);
      ct.Translate(dx, dy);
    }

    /** Scales the whole drawing by `f` in both directions. */
    method Zoom(f: real)
      requires Valid()
      modifies ct
      ensures Valid()
      ensures Snapshot() == old(Snapshot()).(triangles := Scaled(old(ct.triangles), f, f))
    {
      TransformsKeepShape(ct.triangles, f, f);
      ct.Scale(f, f);
    }

    /** `next_state`: the editor never asks for another mode. */
    method NextState() returns (s: Option<States>)
      ensures s == None
    {
      s := None;
    }
  }
}
