/** The logo script: dark pixels are flood-filled inwards from the border by repeated dilation until
    nothing changes, and the filled pixels' alpha is cleared. */
module FloodFill {

  type Pos = (int, int)

  datatype Pixel = Pixel(r: nat, g: nat, b: nat, a: nat)

  predicate Dark(p: Pixel) {
    p.r < 30 && p.g < 30 && p.b < 30
  }

  predicate Inside(h: int, w: int, p: Pos) {
    0 <= p.0 < h && 0 <= p.1 < w
  }

  predicate OnBorder(h: int, w: int, p: Pos) {
    p.0 == 0 || p.0 == h - 1 || p.1 == 0 || p.1 == w - 1
  }

  predicate Adjacent(p: Pos, q: Pos) {
    (p.0 == q.0 && (p.1 == q.1 + 1 || q.1 == p.1 + 1)) || (p.1 == q.1 && (p.0 == q.0 + 1 || q.0 == p.0 + 1))
  }

  /** Positions marked in a mask. */
  ghost function Marked(m: array2<bool>): set<Pos>
    reads m
  {
    set i, j | 0 <= i < m.Length0 && 0 <= j < m.Length1 && m[i, j] :: (i, j)
  }

  // ---- specification: paths of dark pixels ----

  /** A path from a border pixel, moving between adjacent dark pixels. */
  predicate DarkPath(h: int, w: int, dark: set<Pos>, path: seq<Pos>) {
    && |path| > 0
    && OnBorder(h, w, path[0])
    && (forall i | 0 <= i < |path| :: path[i] in dark)
    && (forall i | 0 < i < |path| :: Adjacent(path[i - 1], path[i]))
  }

  ghost predicate Within(h: int, w: int, dark: set<Pos>, p: Pos, steps: nat) {
    exists path :: DarkPath(h, w, dark, path) && path[|path| - 1] == p && |path| <= steps + 1
  }

  ghost predicate Reachable(h: int, w: int, dark: set<Pos>, p: Pos) {
    exists path :: DarkPath(h, w, dark, path) && path[|path| - 1] == p
  }

  // ---- the rounds ----

  function Seeds(h: int, w: int, dark: set<Pos>): set<Pos> {
    set p | p in dark && OnBorder(h, w, p)
  }

  function Neighbours(p: Pos): set<Pos> {
    {(p.0 - 1, p.1), (p.0 + 1, p.1), (p.0, p.1 - 1), (p.0, p.1 + 1)}
  }

  /** One dilation: interior dark pixels next to a filled one are added. */
  function Dilate(h: int, w: int, dark: set<Pos>, filled: set<Pos>): set<Pos> {
    filled + set p | p in dark && !OnBorder(h, w, p) && Neighbours(p) * filled != {}
  }

  function Rounds(h: int, w: int, dark: set<Pos>, k: nat): (filled: set<Pos>)
    ensures filled <= dark
  {
    if k == 0 then Seeds(h, w, dark) else Dilate(h, w, dark, Rounds(h, w, dark, k - 1))
  }

  lemma NeighboursAdjacent(p: Pos, q: Pos)
    ensures q in Neighbours(p) <==> Adjacent(q, p)
  {
  }

  /** After k rounds exactly the pixels within k steps of the border are filled. */
  lemma {:induction false} RoundsAreSteps(h: int, w: int, dark: set<Pos>, k: nat, p: Pos)
    ensures p in Rounds(h, w, dark, k) <==> Within(h, w, dark, p, k)
    decreases k
  {
    if p in Rounds(h, w, dark, k) {
      FilledHasPath(h, w, dark, k, p);
    }
    if Within(h, w, dark, p, k) {
      var path :| DarkPath(h, w, dark, path) && path[|path| - 1] == p && |path| <= k + 1;
      PathIsFilled(h, w, dark, k, path);
    }
  }

  lemma {:induction false} FilledHasPath(h: int, w: int, dark: set<Pos>, k: nat, p: Pos)
    requires p in Rounds(h, w, dark, k)
    ensures Within(h, w, dark, p, k)
    decreases k
  {
    if k == 0 {
      assert DarkPath(h, w, dark, [p]) && [p][|[p]| - 1] == p;
    } else if p in Rounds(h, w, dark, k - 1) {
      FilledHasPath(h, w, dark, k - 1, p);
      var path :| DarkPath(h, w, dark, path) && path[|path| - 1] == p && |path| <= k;
      assert |path| <= k + 1;
    } else {
      var q :| q in Neighbours(p) * Rounds(h, w, dark, k - 1);
      NeighboursAdjacent(p, q);
      FilledHasPath(h, w, dark, k - 1, q);
      var path :| DarkPath(h, w, dark, path) && path[|path| - 1] == q && |path| <= k;
      var longer := path + [p];
      assert DarkPath(h, w, dark, longer) && longer[|longer| - 1] == p && |longer| <= k + 1;
    }
  }

  lemma {:induction false} PathIsFilled(h: int, w: int, dark: set<Pos>, k: nat, path: seq<Pos>)
    requires DarkPath(h, w, dark, path) && |path| <= k + 1
    ensures path[|path| - 1] in Rounds(h, w, dark, k)
    decreases k
  {
    var p := path[|path| - 1];
    if OnBorder(h, w, p) {
      SeedsStay(h, w, dark, k);
    } else {
      assert |path| > 1;
      var before := path[..|path| - 1];
      PathIsFilled(h, w, dark, k - 1, before);
      var q := before[|before| - 1];
      NeighboursAdjacent(p, q);
      assert q in Neighbours(p) * Rounds(h, w, dark, k - 1);
    }
  }

  lemma {:induction false} SeedsStay(h: int, w: int, dark: set<Pos>, k: nat)
    ensures Seeds(h, w, dark) <= Rounds(h, w, dark, k)
  {
    if k > 0 {
      SeedsStay(h, w, dark, k - 1);
    }
  }

  /** A round that changes nothing has filled exactly the reachable pixels. */
  lemma FixedPointIsReachable(h: int, w: int, dark: set<Pos>, k: nat)
    requires Dilate(h, w, dark, Rounds(h, w, dark, k)) == Rounds(h, w, dark, k)
    ensures forall p :: p in Rounds(h, w, dark, k) <==> Reachable(h, w, dark, p)
  {
    forall p
      ensures p in Rounds(h, w, dark, k) <==> Reachable(h, w, dark, p)
    {
      RoundsAreSteps(h, w, dark, k, p);
      if Reachable(h, w, dark, p) {
        var path :| DarkPath(h, w, dark, path) && path[|path| - 1] == p;
        PathStaysFilled(h, w, dark, k, path);
      }
    }
  }

  lemma {:induction false} PathStaysFilled(h: int, w: int, dark: set<Pos>, k: nat, path: seq<Pos>)
    requires Dilate(h, w, dark, Rounds(h, w, dark, k)) == Rounds(h, w, dark, k)
    requires DarkPath(h, w, dark, path)
    ensures path[|path| - 1] in Rounds(h, w, dark, k)
    decreases |path|
  {
    var p := path[|path| - 1];
    if OnBorder(h, w, p) {
      SeedsStay(h, w, dark, k);
    } else {
      var before := path[..|path| - 1];
      PathStaysFilled(h, w, dark, k, before);
      NeighboursAdjacent(p, before[|before| - 1]);
      assert before[|before| - 1] in Neighbours(p) * Rounds(h, w, dark, k);
    }
  }

  // ---- the script ----

  /** border & bg_mask */
  method Initial(bg: array2<bool>) returns (filled: array2<bool>)
    requires bg.Length0 >= 1 && bg.Length1 >= 1
    ensures fresh(filled) && filled.Length0 == bg.Length0 && filled.Length1 == bg.Length1
    ensures Marked(filled) == Seeds(bg.Length0, bg.Length1, Marked(bg))
  {
    var h, w := bg.Length0, bg.Length1;
    filled := new bool[h, w];
    forall i, j | 0 <= i < h && 0 <= j < w {
      filled[i, j] := (i == 0 || i == h - 1 || j == 0 || j == w - 1) && bg[i, j];
    }
  }

  /** One pass of the loop body: a copy of `filled` with the interior dilated. */
  method Pass(bg: array2<bool>, filled: array2<bool>) returns (next: array2<bool>)
    requires filled.Length0 == bg.Length0 >= 1 && filled.Length1 == bg.Length1 >= 1
    ensures fresh(next) && next.Length0 == bg.Length0 && next.Length1 == bg.Length1
    ensures Marked(next) == Dilate(bg.Length0, bg.Length1, Marked(bg), Marked(filled))
  {
    var h, w := bg.Length0, bg.Length1;
    next := new bool[h, w];
    forall i, j | 0 <= i < h && 0 <= j < w {
      next[i, j] := filled[i, j];
    }
    forall i, j | 1 <= i < h - 1 && 1 <= j < w - 1 {
      next[i, j] := next[i, j]
                    || ((filled[i - 1, j] || filled[i + 1, j] || filled[i, j - 1] || filled[i, j + 1]) && bg[i, j]);
    }
    PassIsDilate(bg, filled, next);
  }

  lemma PassIsDilate(bg: array2<bool>, filled: array2<bool>, next: array2<bool>)
    requires filled.Length0 == next.Length0 == bg.Length0 && filled.Length1 == next.Length1 == bg.Length1
    requires forall i, j | 0 <= i < bg.Length0 && 0 <= j < bg.Length1 ::
      next[i, j] == (filled[i, j] || (1 <= i < bg.Length0 - 1 && 1 <= j < bg.Length1 - 1 && bg[i, j]
        && (filled[i - 1, j] || filled[i + 1, j] || filled[i, j - 1] || filled[i, j + 1])))
    ensures Marked(next) == Dilate(bg.Length0, bg.Length1, Marked(bg), Marked(filled))
  {
    var h, w := bg.Length0, bg.Length1;
    forall p: Pos | Inside(h, w, p)
      ensures p in Marked(next) <==> p in Dilate(h, w, Marked(bg), Marked(filled))
    {
      var (i, j) := p;
      assert p in Marked(next) <==> next[i, j];
      assert p in Marked(filled) <==> filled[i, j];
      if !OnBorder(h, w, p) {
        assert (i - 1, j) in Marked(filled) <==> filled[i - 1, j];
        assert (i + 1, j) in Marked(filled) <==> filled[i + 1, j];
        assert (i, j - 1) in Marked(filled) <==> filled[i, j - 1];
        assert (i, j + 1) in Marked(filled) <==> filled[i, j + 1];
        assert p in Marked(bg) <==> bg[i, j];
        var near := Neighbours(p) * Marked(filled);
        assert near != {} <==>
               (i - 1, j) in near || (i + 1, j) in near || (i, j - 1) in near || (i, j + 1) in near;
      }
    }
  }

  method SameMask(a: array2<bool>, b: array2<bool>) returns (same: bool)
    requires a.Length0 == b.Length0 && a.Length1 == b.Length1
    ensures same <==> Marked(a) == Marked(b)
  {
    same := forall i, j | 0 <= i < a.Length0 && 0 <= j < a.Length1 :: a[i, j] == b[i, j];
    if !same {
      ghost var i, j :| 0 <= i < a.Length0 && 0 <= j < a.Length1 && a[i, j] != b[i, j];
      assert (i, j) in Marked(a) <==> (i, j) !in Marked(b);
    }
  }

  /** The loop ends on every image, with exactly the dark pixels connected to the border through dark
      pixels; `rounds` passes were made, and one fewer would not have been enough. */
  method Fill(bg: array2<bool>) returns (filled: array2<bool>, rounds: nat)
    requires bg.Length0 >= 1 && bg.Length1 >= 1
    ensures fresh(filled) && filled.Length0 == bg.Length0 && filled.Length1 == bg.Length1
    ensures forall p :: p in Marked(filled) <==> Reachable(bg.Length0, bg.Length1, Marked(bg), p)
    ensures rounds >= 1 && Marked(filled) == Rounds(bg.Length0, bg.Length1, Marked(bg), rounds - 1)
    ensures forall k: nat | k < rounds - 1 ::
      Rounds(bg.Length0, bg.Length1, Marked(bg), k) != Rounds(bg.Length0, bg.Length1, Marked(bg), k + 1)
  {
    ghost var h, w, dark := bg.Length0, bg.Length1, Marked(bg);
    filled := Initial(bg);
    rounds := 0;
    while true
      invariant fresh(filled) && filled.Length0 == bg.Length0 && filled.Length1 == bg.Length1
      invariant Marked(bg) == dark && Marked(filled) == Rounds(h, w, dark, rounds)
      invariant forall k: nat | k < rounds :: Rounds(h, w, dark, k) != Rounds(h, w, dark, k + 1)
      decreases |dark - Marked(filled)|
    {
      rounds := rounds + 1;
      var next := Pass(bg, filled);
      var same := SameMask(next, filled);
      if same {
        FixedPointIsReachable(h, w, dark, rounds - 1);
        break;
      }
      Shrinks(dark, Marked(filled), Marked(next));
      filled := next;
    }
  }

  lemma Shrinks(dark: set<Pos>, before: set<Pos>, after: set<Pos>)
    requires before <= after <= dark && before != after
    ensures |dark - after| < |dark - before|
  {
    var p :| p in after && p !in before;
    assert dark - after <= dark - before - {p};
    Smaller(dark - after, dark - before - {p});
  }

  lemma {:induction false} Smaller(a: set<Pos>, b: set<Pos>)
    requires a <= b
    ensures |a| <= |b|
    decreases a
  {
    if a != {} {
      var p :| p in a;
      Smaller(a - {p}, b - {p});
    }
  }

  /** The whole script: only the alpha of the background pixels changes, to zero. */
  method ClearBackground(image: array2<Pixel>) returns (result: array2<Pixel>)
    requires image.Length0 >= 1 && image.Length1 >= 1
    ensures fresh(result) && result.Length0 == image.Length0 && result.Length1 == image.Length1
    ensures forall i, j | 0 <= i < image.Length0 && 0 <= j < image.Length1 ::
      result[i, j] == if Reachable(image.Length0, image.Length1, DarkPixels(image), (i, j))
                      then image[i, j].(a := 0) else image[i, j]
  {
    var h, w := image.Length0, image.Length1;
    var bg := new bool[h, w];
    forall i, j | 0 <= i < h && 0 <= j < w {
      bg[i, j] := Dark(image[i, j]);
    }
    assert Marked(bg) == DarkPixels(image);
    var filled, rounds := Fill(bg);
    assert forall i, j | 0 <= i < h && 0 <= j < w :: filled[i, j] <==> (i, j) in Marked(filled);
    result := new Pixel[h, w];
    forall i, j | 0 <= i < h && 0 <= j < w {
      result[i, j] := if filled[i, j] then image[i, j].(a := 0) else image[i, j];
    }
  }

  ghost function DarkPixels(image: array2<Pixel>): set<Pos>
    reads image
  {
    set i, j | 0 <= i < image.Length0 && 0 <= j < image.Length1 && Dark(image[i, j]) :: (i, j)
  }

  /** Black means every channel below 30: nothing else is ever cleared, and on the border all of it is. */
  lemma OnlyBlackIsCleared(image: array2<Pixel>, i: nat, j: nat)
    requires i < image.Length0 && j < image.Length1
    ensures var p, cleared := image[i, j], Reachable(image.Length0, image.Length1, DarkPixels(image), (i, j));
            && (cleared ==> p.r < 30 && p.g < 30 && p.b < 30)
            && (p.r < 30 && p.g < 30 && p.b < 30 && OnBorder(image.Length0, image.Length1, (i, j)) ==> cleared)
  {
    var h, w, dark := image.Length0, image.Length1, DarkPixels(image);
    if Reachable(h, w, dark, (i, j)) {
      var path :| DarkPath(h, w, dark, path) && path[|path| - 1] == (i, j);
      assert path[|path| - 1] in dark;
    }
    if (i, j) in dark && OnBorder(h, w, (i, j)) {
      assert DarkPath(h, w, dark, [(i, j)]) && [(i, j)][0] == (i, j);
    }
  }
}
