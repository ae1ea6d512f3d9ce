/**
 * Person colouring across frames in the ArtTrack multi-person visualiser
 * (research/cv/ArtTrack/src/multiperson/visualize.py).
 *
 * `PersonDraw` remembers the previous frame's people and their colours.
 * Each frame, people are matched to the previous ones (Hungarian matching
 * on the distances between reference points, both outside this model and
 * passed in as functions); a close enough match inherits its colour, and
 * everyone else takes the smallest colour still free.
 */
module ArtTrackDraw {
  import opened Wrappers

  const MarkerSize: int := 5
  const MinMatchDist: real := 200.0
  const DrawConfMinCount: nat := 3

  /** `check_point`: strictly inside the box on every side. */
  predicate CheckPoint(x: int, y: int, minx: int, miny: int, maxx: int, maxy: int)
  {
    minx < x < maxx && miny < y < maxy
  }

  /** A point on the border is outside, so only the open interior is drawn. */
  lemma CheckPointExcludesBorder(x: int, y: int, minx: int, miny: int, maxx: int, maxy: int)
    requires x == minx || x == maxx || y == miny || y == maxy
    ensures !CheckPoint(x, y, minx, miny, maxx, maxy)
  {
  }

  // ---------------------------------------------------------------------
  // Colours
  // ---------------------------------------------------------------------

  datatype Rgb = Rgb(r: nat, g: nat, b: nat)

  predicate IsHexDigit(c: char)
  {
    '0' <= c <= '9' || 'a' <= c <= 'f' || 'A' <= c <= 'F'
  }

  /** The value of one digit of `int(s, 16)`; both letter cases are accepted. */
  function HexValue(c: char): (v: nat)
    requires IsHexDigit(c)
    ensures v < 16
  {
    if '0' <= c <= '9' then c as nat - '0' as nat
    else if 'a' <= c <= 'f' then c as nat - 'a' as nat + 10
    else c as nat - 'A' as nat + 10
  }

  /** The upper-case digit for a value below 16. */
  function HexDigit(v: nat): (c: char)
    requires v < 16
    ensures IsHexDigit(c) && HexValue(c) == v
  {
    if v < 10 then ('0' as nat + v) as char else ('A' as nat + v - 10) as char
  }

  predicate IsColorString(s: string)
  {
    |s| == 7 && s[0] == '#' &&
    IsHexDigit(s[1]) && IsHexDigit(s[2]) && IsHexDigit(s[3]) && IsHexDigit(s[4]) && IsHexDigit(s[5]) && IsHexDigit(s[6])
  }

  /** `(int(s[1:3], 16), int(s[3:5], 16), int(s[5:7], 16))`. */
  function ParseColor(s: string): (c: Rgb)
    requires IsColorString(s)
    ensures c.r < 256 && c.g < 256 && c.b < 256
  {
    Rgb(HexValue(s[1]) * 16 + HexValue(s[2]), HexValue(s[3]) * 16 + HexValue(s[4]), HexValue(s[5]) * 16 + HexValue(s[6]))
  }

  /** The `#RRGGBB` spelling of a colour, upper case. */
  function ColorString(c: Rgb): (s: string)
    requires c.r < 256 && c.g < 256 && c.b < 256
    ensures IsColorString(s)
  {
    ['#', HexDigit(c.r / 16), HexDigit(c.r % 16), HexDigit(c.g / 16), HexDigit(c.g % 16),
     HexDigit(c.b / 16), HexDigit(c.b % 16)]
  }

  /** Parsing undoes spelling, so every byte triple is reachable. */
  lemma ParseColorString(c: Rgb)
    requires c.r < 256 && c.g < 256 && c.b < 256
    ensures ParseColor(ColorString(c)) == c
  {
  }

  /** Spelling undoes parsing for upper-case strings, so no two palette strings give the same colour. */
  lemma ColorStringOfParse(s: string)
    requires IsColorString(s) && forall k | 1 <= k < 7 :: !('a' <= s[k] <= 'f')
    ensures ColorString(ParseColor(s)) == s
  {
    var c := ParseColor(s);
    assert c.r / 16 == HexValue(s[1]) && c.r % 16 == HexValue(s[2]);
    assert c.g / 16 == HexValue(s[3]) && c.g % 16 == HexValue(s[4]);
    assert c.b / 16 == HexValue(s[5]) && c.b % 16 == HexValue(s[6]);
  }

  /**
   * The thirty entries of `track_colors`, each written as the colour its
   * `#RRGGBB` string parses to (`ParseColor`, checked for the first entry
   * by `TrackColorsFirstEntry`).
   */
  const TrackColors: seq<Rgb> := [
    Rgb(0xF5, 0x59, 0x1E), Rgb(0x38, 0x70, 0xFB), Rgb(0xFE, 0x5D, 0xB0), Rgb(0xB4, 0xA6, 0x91), Rgb(0x43, 0x05, 0x3F),
    Rgb(0x34, 0x75, 0xB1), Rgb(0x64, 0x26, 0x12), Rgb(0xB3, 0xB4, 0x3D), Rgb(0xDD, 0x9B, 0xFE), Rgb(0x28, 0x94, 0x8D),
    Rgb(0xE9, 0x9D, 0x53), Rgb(0x01, 0x2B, 0x46), Rgb(0x9D, 0x2D, 0xA3), Rgb(0x04, 0x22, 0x0A), Rgb(0x62, 0xCB, 0x22),
    Rgb(0xEE, 0x8F, 0x91), Rgb(0xD7, 0x16, 0x38), Rgb(0x00, 0x61, 0x3A), Rgb(0x31, 0x89, 0x18), Rgb(0xB7, 0x70, 0xFF),
    Rgb(0x82, 0xC0, 0x91), Rgb(0x6C, 0x13, 0x33), Rgb(0x97, 0x34, 0x05), Rgb(0xB1, 0x9C, 0xB2), Rgb(0xF6, 0x26, 0x7B),
    Rgb(0x28, 0x44, 0x89), Rgb(0x97, 0xBF, 0x17), Rgb(0x3B, 0x89, 0x9C), Rgb(0x93, 0x18, 0x13), Rgb(0xFA, 0x76, 0xB6)
  ]

  /** The palette starts with `#F5591E`. */
  lemma TrackColorsFirstEntry()
    ensures IsColorString("#F5591E") && TrackColors[0] == ParseColor("#F5591E")
    ensures ColorString(TrackColors[0]) == "#F5591E"
  {
  }

  // ---------------------------------------------------------------------
  // Matching against the previous frame
  // ---------------------------------------------------------------------

  /** Assignment pairs (row, column) within the matrix, each row and each column used at most once. */
  predicate ValidAssignment(m: seq<seq<real>>, pairs: seq<(nat, nat)>)
  {
    (forall k | 0 <= k < |pairs| :: pairs[k].0 < |m| && pairs[k].1 < |m[pairs[k].0]|) &&
    (forall k, l | 0 <= k < l < |pairs| :: pairs[k].0 != pairs[l].0 && pairs[k].1 != pairs[l].1)
  }

  /**
   * The cost matrix handed to the matcher: the smaller group on the rows.
   * Entry (current i, previous j) is `dist(i, j)` either way round.
   */
  function CostMatrix(n: nat, prevN: nat, dist: (nat, nat) -> real): (m: seq<seq<real>>)
    ensures |m| == (if n <= prevN then n else prevN)
    ensures forall row | 0 <= row < |m| :: |m[row]| == (if n <= prevN then prevN else n)
  {
    if n <= prevN then seq(n, i requires 0 <= i < n => seq(prevN, j requires 0 <= j < prevN => dist(i, j)))
    else seq(prevN, j requires 0 <= j < prevN => seq(n, i requires 0 <= i < n => dist(i, j)))
  }

  /** The pairs as (current person, previous person), swapped back when the rows were the previous people. */
  function Oriented(pairs: seq<(nat, nat)>, swapped: bool): (r: seq<(nat, nat)>)
    ensures |r| == |pairs|
    ensures forall k | 0 <= k < |r| :: r[k] == (if swapped then (pairs[k].1, pairs[k].0) else pairs[k])
  {
    seq(|pairs|, k requires 0 <= k < |pairs| => if swapped then (pairs[k].1, pairs[k].0) else pairs[k])
  }

  /** Matched pairs (current, previous) for a frame of `n` people after one of `prevN`. */
  function Matches(n: nat, prevN: nat, dist: (nat, nat) -> real, matcher: seq<seq<real>> -> seq<(nat, nat)>)
    : (r: seq<(nat, nat)>)
    requires forall m: seq<seq<real>> :: ValidAssignment(m, matcher(m))
    ensures forall k | 0 <= k < |r| :: r[k].0 < n && r[k].1 < prevN
    ensures forall k, l | 0 <= k < l < |r| :: r[k].0 != r[l].0
  {
    if prevN == 0 || n == 0 then []
    else
      var m := CostMatrix(n, prevN, dist);
      var pairs := matcher(m);
      assert ValidAssignment(m, pairs);
      Oriented(pairs, n > prevN)
  }

  /** The smallest unused colour among the first `k`, listed largest first as in `sorted(..., reverse=True)`. */
  function FreeColors(used: set<nat>, k: nat): (free: seq<nat>)
    ensures forall p | 0 <= p < |free| :: free[p] < k && free[p] !in used
    ensures forall p, q | 0 <= p < q < |free| :: free[p] > free[q]
    ensures forall c | 0 <= c < k && c !in used :: c in free
  {
    if k == 0 then [] else (if k - 1 in used then [] else [k - 1]) + FreeColors(used, k - 1)
  }

  /** The number of people before `p` that were not matched. */
  function UnmatchedBefore(matched: map<nat, nat>, p: nat): (u: nat)
    ensures u <= p
  {
    if p == 0 then 0 else UnmatchedBefore(matched, p - 1) + (if p - 1 in matched then 0 else 1)
  }

  lemma {:induction false} UnmatchedBeforeGrows(matched: map<nat, nat>, p: nat, q: nat)
    requires p < q && p !in matched
    ensures UnmatchedBefore(matched, p) < UnmatchedBefore(matched, q)
  {
    if q > p + 1 {
      UnmatchedBeforeGrows(matched, p, q - 1);
    }
  }

  /** A line of the pose skeleton: person, colour index and its two end points. */
  datatype Line = Line(person: nat, colorIdx: nat, x1: int, y1: int, x2: int, y2: int)

  function PositiveXCount(joints: seq<(real, real)>): nat
  {
    if |joints| == 0 then 0 else PositiveXCount(joints[..|joints| - 1]) + (if joints[|joints| - 1].0 > 0.0 then 1 else 0)
  }

  datatype Bounds = Bounds(minx: int, miny: int, maxx: int, maxy: int)

  predicate SegmentsInRange(joints: seq<(real, real)>, segments: seq<(nat, nat)>)
  {
    forall s | 0 <= s < |segments| :: segments[s].0 < |joints| && segments[s].1 < |joints|
  }

  /** The lines drawn for one person: none with fewer than three visible joints, else every segment inside the bounds. */
  function PersonLines(p: nat, joints: seq<(real, real)>, segments: seq<(nat, nat)>, colorIdx: nat, b: Bounds)
    : (lines: seq<Line>)
    requires SegmentsInRange(joints, segments)
    ensures PositiveXCount(joints) < DrawConfMinCount ==> lines == []
    ensures forall k | 0 <= k < |lines| ::
      lines[k].person == p && lines[k].colorIdx == colorIdx &&
      CheckPoint(lines[k].x1, lines[k].y1, b.minx, b.miny, b.maxx, b.maxy) &&
      CheckPoint(lines[k].x2, lines[k].y2, b.minx, b.miny, b.maxx, b.maxy)
  {
    if PositiveXCount(joints) < DrawConfMinCount then [] else SegmentLines(p, joints, segments, colorIdx, b)
  }

  function SegmentLines(p: nat, joints: seq<(real, real)>, segments: seq<(nat, nat)>, colorIdx: nat, b: Bounds)
    : (lines: seq<Line>)
    requires SegmentsInRange(joints, segments)
    ensures |lines| <= |segments|
    ensures forall k | 0 <= k < |lines| ::
      lines[k].person == p && lines[k].colorIdx == colorIdx &&
      CheckPoint(lines[k].x1, lines[k].y1, b.minx, b.miny, b.maxx, b.maxy) &&
      CheckPoint(lines[k].x2, lines[k].y2, b.minx, b.miny, b.maxx, b.maxy)
  {
    if |segments| == 0 then []
    else
      var s := segments[|segments| - 1];
      var p1 := (joints[s.0].0.Floor, joints[s.0].1.Floor);
      var p2 := (joints[s.1].0.Floor, joints[s.1].1.Floor);
      SegmentLines(p, joints, segments[..|segments| - 1], colorIdx, b) +
      (if CheckPoint(p1.0, p1.1, b.minx, b.miny, b.maxx, b.maxy) && CheckPoint(p2.0, p2.1, b.minx, b.miny, b.maxx, b.maxy)
       then [Line(p, colorIdx, p1.0, p1.1, p2.0, p2.1)] else [])
  }

  class PersonDraw {
    var prevPersonConf: seq<seq<(real, real)>>
    var prevColorAssignment: Option<map<nat, nat>>
    const trackColors: seq<Rgb>

    /** Everyone of the previous frame has a palette colour. */
    ghost predicate Valid()
      reads this
    {
      trackColors == TrackColors &&
      (|prevPersonConf| > 0 ==>
        prevColorAssignment.Some? &&
        forall j | 0 <= j < |prevPersonConf| :: j in prevColorAssignment.value && prevColorAssignment.value[j] < |trackColors|)
    }

    constructor()
      ensures Valid()
      ensures prevPersonConf == [] && prevColorAssignment == None
    {
      prevPersonConf := [];
      prevColorAssignment := None;
      trackColors := TrackColors;
    }

    /**
     * `draw` for an image of `width` x `height`: colours every person of
     * `personConf`, returns the skeleton lines it would plot, and makes
     * this frame the previous one. `dist` and `matcher` stand for `cdist`
     * on the reference points and for the Munkres solver.
     */
    method Draw(width: int, height: int, personConf: seq<seq<(real, real)>>, segments: seq<(nat, nat)>,
                dist: (nat, nat) -> real, matcher: seq<seq<real>> -> seq<(nat, nat)>)
      returns (colorAssignment: map<nat, nat>, lines: seq<Line>)
      requires Valid()
      requires forall p | 0 <= p < |personConf| :: SegmentsInRange(personConf[p], segments)
      requires forall m: seq<seq<real>> :: ValidAssignment(m, matcher(m))
      modifies this
      ensures Valid()
      ensures prevPersonConf == personConf && prevColorAssignment == Some(colorAssignment)
      ensures FrameColors(|personConf|, |old(prevPersonConf)|, old(prevColorAssignment), dist, matcher,
                          |trackColors|, colorAssignment)
      ensures lines == AllLines(personConf, segments, colorAssignment,
                                Bounds(2 * MarkerSize, 2 * MarkerSize, width - 2 * MarkerSize, height - 2 * MarkerSize),
                                |personConf|)
    {
      var b := Bounds(2 * MarkerSize, 2 * MarkerSize, width - 2 * MarkerSize, height - 2 * MarkerSize);
      colorAssignment, lines := DrawFrame(personConf, segments, prevPersonConf, prevColorAssignment, |trackColors|,
                                          dist, matcher, b);
      prevPersonConf := personConf;
      prevColorAssignment := Some(colorAssignment);
    }
  }

  /**
   * The colours of a frame of `n` people after a frame of `prevN`: everyone
   * has a palette colour, a close match keeps the previous person's colour,
   * and the others take the free colours from the smallest up, in order.
   */
  ghost predicate FrameColors(n: nat, prevN: nat, prev: Option<map<nat, nat>>, dist: (nat, nat) -> real,
                              matcher: seq<seq<real>> -> seq<(nat, nat)>, numColors: nat, colors: map<nat, nat>)
    requires forall m: seq<seq<real>> :: ValidAssignment(m, matcher(m))
  {
    (forall p | 0 <= p < n :: p in colors && colors[p] < numColors) &&
    (forall p | p in colors :: p < n) &&
    (var pairs := Matches(n, prevN, dist, matcher);
     forall k | 0 <= k < |pairs| && dist(pairs[k].0, pairs[k].1) < MinMatchDist ::
       pairs[k].1 < prevN && prev.Some? && pairs[k].1 in prev.value &&
       colors[pairs[k].0] == prev.value[pairs[k].1]) &&
    (var inherited := Inherited(Matches(n, prevN, dist, matcher), dist, prev);
     var free := FreeColors(inherited.Values, numColors);
     forall p | 0 <= p < n && p !in inherited && UnmatchedBefore(inherited, p) < |free| ::
       colors[p] == free[|free| - 1 - UnmatchedBefore(inherited, p)])
  }

  /** The body of `draw`, on the previous frame passed in. */
  method DrawFrame(personConf: seq<seq<(real, real)>>, segments: seq<(nat, nat)>,
                   prevPersonConf: seq<seq<(real, real)>>, prevColorAssignment: Option<map<nat, nat>>, numColors: nat,
                   dist: (nat, nat) -> real, matcher: seq<seq<real>> -> seq<(nat, nat)>, b: Bounds)
    returns (colorAssignment: map<nat, nat>, lines: seq<Line>)
    requires numColors > 0
    requires |prevPersonConf| > 0 ==>
      prevColorAssignment.Some? &&
      forall j | 0 <= j < |prevPersonConf| :: j in prevColorAssignment.value && prevColorAssignment.value[j] < numColors
    requires forall p | 0 <= p < |personConf| :: SegmentsInRange(personConf[p], segments)
    requires forall m: seq<seq<real>> :: ValidAssignment(m, matcher(m))
    ensures FrameColors(|personConf|, |prevPersonConf|, prevColorAssignment, dist, matcher, numColors, colorAssignment)
    ensures lines == AllLines(personConf, segments, colorAssignment, b, |personConf|)
  {
    var pairs := Matches(|personConf|, |prevPersonConf|, dist, matcher);
    var inherited := InheritColors(pairs, dist, prevColorAssignment, |prevPersonConf|);
    InheritedSpec(pairs, dist, prevColorAssignment, |prevPersonConf|, numColors);
    var free := FreeColors(inherited.Values, numColors);
    colorAssignment, lines := ColorAndDraw(personConf, segments, inherited, free, b, numColors);
    FrameColorsFrom(|personConf|, |prevPersonConf|, prevColorAssignment, dist, matcher, numColors, colorAssignment);
  }

  /** The colouring loop's guarantees over the inherited colours give the frame's colouring. */
  lemma FrameColorsFrom(n: nat, prevN: nat, prev: Option<map<nat, nat>>, dist: (nat, nat) -> real,
                        matcher: seq<seq<real>> -> seq<(nat, nat)>, numColors: nat, colors: map<nat, nat>)
    requires forall m: seq<seq<real>> :: ValidAssignment(m, matcher(m))
    requires prevN > 0 ==> prev.Some? && forall j | 0 <= j < prevN :: j in prev.value && prev.value[j] < numColors
    requires var inherited := Inherited(Matches(n, prevN, dist, matcher), dist, prev);
      (forall p | 0 <= p < n :: p in colors && colors[p] < numColors) &&
      (forall p | p in colors :: p < n) &&
      (forall p | p in inherited :: p in colors && colors[p] == inherited[p]) &&
      (forall p | 0 <= p < n :: TakesFree(colors, inherited, FreeColors(inherited.Values, numColors), p))
    ensures FrameColors(n, prevN, prev, dist, matcher, numColors, colors)
  {
    var pairs := Matches(n, prevN, dist, matcher);
    var inherited := Inherited(pairs, dist, prev);
    InheritedSpec(pairs, dist, prev, prevN, numColors);
    TakesFreeAll(colors, inherited, FreeColors(inherited.Values, numColors), n);
  }

  function Min(a: int, b: int): int { if a < b then a else b }

  /** The loop over the matched pairs: a close pair copies the previous person's colour. */
  method InheritColors(pairs: seq<(nat, nat)>, dist: (nat, nat) -> real, prev: Option<map<nat, nat>>, prevN: nat)
    returns (inherited: map<nat, nat>)
    requires forall k | 0 <= k < |pairs| :: pairs[k].1 < prevN
    requires prevN > 0 ==> prev.Some? && forall j | 0 <= j < prevN :: j in prev.value
    ensures inherited == Inherited(pairs, dist, prev)
  {
    inherited := map[];
    for k := 0 to |pairs|
      invariant inherited == Inherited(pairs[..k], dist, prev)
    {
      assert pairs[..k + 1][..k] == pairs[..k];
      var (p1, p2) := pairs[k];
      if dist(p1, p2) < MinMatchDist {
        inherited := inherited[p1 := prev.value[p2]];
      }
    }
    assert pairs[..|pairs|] == pairs;
  }

  /**
   * The loop over the people of the frame: an unmatched person takes the
   * last (smallest) colour of `free0`, or any colour once none is free, and
   * every person with enough visible joints is drawn in its colour.
   */
  method ColorAndDraw(personConf: seq<seq<(real, real)>>, segments: seq<(nat, nat)>, inherited: map<nat, nat>,
                      free0: seq<nat>, b: Bounds, numColors: nat)
    returns (colors: map<nat, nat>, lines: seq<Line>)
    requires forall p | 0 <= p < |personConf| :: SegmentsInRange(personConf[p], segments)
    requires forall p | p in inherited :: p < |personConf| && inherited[p] < numColors
    requires forall i | 0 <= i < |free0| :: free0[i] < numColors
    requires numColors > 0
    ensures forall p | 0 <= p < |personConf| :: p in colors && colors[p] < numColors
    ensures forall p | p in colors :: p < |personConf|
    ensures forall p | p in inherited :: colors[p] == inherited[p]
    ensures forall p | 0 <= p < |personConf| :: TakesFree(colors, inherited, free0, p)
    ensures lines == AllLines(personConf, segments, colors, b, |personConf|)
  {
    var n := |personConf|;
    var free := free0;
    ghost var unmatched := 0;
    colors := inherited;
    lines := [];
    for pidx := 0 to n
      invariant ColorsSoFar(inherited, free0, numColors, n, pidx, colors, free, unmatched)
      invariant lines == AllLines(personConf, segments, colors, b, pidx)
    {
      var colorIdx;
      ghost var before := colors;
      colorIdx, colors, free, unmatched := ColorStep(inherited, free0, numColors, n, pidx, colors, free, unmatched);
      AllLinesUnchanged(personConf, segments, before, pidx, pidx, colorIdx, b);
      AllLinesNext(personConf, segments, colors, b, pidx);
      lines := lines + PersonLines(pidx, personConf[pidx], segments, colorIdx, b);
    }
    ColorsDone(inherited, free0, numColors, n, colors, free, unmatched);
  }

  /** After the last person the loop's invariant is the colouring's contract. */
  lemma ColorsDone(inherited: map<nat, nat>, free0: seq<nat>, numColors: nat, n: nat,
                   colors: map<nat, nat>, free: seq<nat>, unmatched: nat)
    requires ColorsSoFar(inherited, free0, numColors, n, n, colors, free, unmatched)
    ensures forall p | 0 <= p < n :: p in colors && colors[p] < numColors
    ensures forall p | p in colors :: p < n
    ensures forall p | p in inherited :: colors[p] == inherited[p]
    ensures forall p | 0 <= p < n :: TakesFree(colors, inherited, free0, p)
  {
  }

  /** What the colouring loop keeps after the first `pidx` people. */
  ghost predicate ColorsSoFar(inherited: map<nat, nat>, free0: seq<nat>, numColors: nat, n: nat, pidx: nat,
                              colors: map<nat, nat>, free: seq<nat>, unmatched: nat)
  {
    pidx <= n &&
    (forall p | 0 <= p < pidx :: p in colors) &&
    (forall p | p in colors :: p < n && colors[p] < numColors) &&
    (forall p | p in inherited :: p in colors && colors[p] == inherited[p]) &&
    (forall p | p in colors && pidx <= p :: p in inherited) &&
    unmatched == UnmatchedBefore(inherited, pidx) &&
    |free| <= |free0| && |free0| - |free| == Min(unmatched, |free0|) &&
    free == free0[..|free|] &&
    (forall p | 0 <= p < pidx :: TakesFree(colors, inherited, free0, p))
  }

  /** One turn of the colouring loop: person `pidx` keeps an inherited colour or takes the next free one. */
  method ColorStep(inherited: map<nat, nat>, free0: seq<nat>, numColors: nat, n: nat, pidx: nat,
                   colors: map<nat, nat>, free: seq<nat>, ghost unmatched: nat)
    returns (colorIdx: nat, colors': map<nat, nat>, free': seq<nat>, ghost unmatched': nat)
    requires pidx < n && numColors > 0
    requires forall i | 0 <= i < |free0| :: free0[i] < numColors
    requires ColorsSoFar(inherited, free0, numColors, n, pidx, colors, free, unmatched)
    ensures ColorsSoFar(inherited, free0, numColors, n, pidx + 1, colors', free', unmatched')
    ensures colors' == colors[pidx := colorIdx]
  {
    if pidx in colors {
      colorIdx := colors[pidx];
      colors', free', unmatched' := colors, free, unmatched;
    } else {
      colorIdx, free' := TakeFreeColor(free, numColors);
      if unmatched < |free0| {
        assert colorIdx == free0[|free0| - 1 - unmatched];
      }
      colors' := colors[pidx := colorIdx];
      TakesFreeKept(colors, colors', inherited, free0, pidx, colorIdx);
      assert TakesFree(colors', inherited, free0, pidx);
      unmatched' := unmatched + 1;
    }
  }

  /** An unmatched person `p` with a free colour left took the `u`-th smallest, `u` people being unmatched before it. */
  predicate TakesFree(colors: map<nat, nat>, inherited: map<nat, nat>, free0: seq<nat>, p: nat)
  {
    p !in inherited && UnmatchedBefore(inherited, p) < |free0| ==>
      p in colors && colors[p] == free0[|free0| - 1 - UnmatchedBefore(inherited, p)]
  }

  lemma TakesFreeKept(colors: map<nat, nat>, updated: map<nat, nat>, inherited: map<nat, nat>, free0: seq<nat>, pidx: nat, c: nat)
    requires updated == colors[pidx := c]
    requires forall p | 0 <= p < pidx :: TakesFree(colors, inherited, free0, p)
    ensures forall p | 0 <= p < pidx :: TakesFree(updated, inherited, free0, p)
  {
    forall p | 0 <= p < pidx
      ensures TakesFree(updated, inherited, free0, p)
    {
      assert TakesFree(colors, inherited, free0, p);
    }
  }

  lemma TakesFreeAll(colors: map<nat, nat>, inherited: map<nat, nat>, free0: seq<nat>, n: nat)
    requires forall p | 0 <= p < n :: TakesFree(colors, inherited, free0, p)
    ensures forall p | 0 <= p < n && p !in inherited && UnmatchedBefore(inherited, p) < |free0| ::
      p in colors && colors[p] == free0[|free0| - 1 - UnmatchedBefore(inherited, p)]
  {
    forall p | 0 <= p < n && p !in inherited && UnmatchedBefore(inherited, p) < |free0|
      ensures p in colors && colors[p] == free0[|free0| - 1 - UnmatchedBefore(inherited, p)]
    {
      assert TakesFree(colors, inherited, free0, p);
    }
  }

  /** The last free colour when one is left, else a random palette index. */
  method TakeFreeColor(free: seq<nat>, numColors: nat) returns (colorIdx: nat, rest: seq<nat>)
    requires numColors > 0
    requires forall i | 0 <= i < |free| :: free[i] < numColors
    ensures colorIdx < numColors
    ensures |free| > 0 ==> colorIdx == free[|free| - 1] && rest == free[..|free| - 1]
    ensures |free| == 0 ==> rest == []
  {
    if |free| > 0 {
      colorIdx := free[|free| - 1];
      rest := free[..|free| - 1];
    } else {
      colorIdx :| colorIdx < numColors;
      rest := free;
    }
  }

  /** The colours inherited by the pairs closer than the matching distance, later pairs last. */
  function Inherited(pairs: seq<(nat, nat)>, dist: (nat, nat) -> real, prev: Option<map<nat, nat>>): map<nat, nat>
  {
    if |pairs| == 0 then map[]
    else
      var m := Inherited(pairs[..|pairs| - 1], dist, prev);
      var (p1, p2) := pairs[|pairs| - 1];
      if dist(p1, p2) < MinMatchDist && prev.Some? && p2 in prev.value then m[p1 := prev.value[p2]] else m
  }

  /** With distinct current people, each close pair keeps its inherited colour and nothing else is inherited. */
  lemma {:induction false} InheritedSpec(pairs: seq<(nat, nat)>, dist: (nat, nat) -> real, prev: Option<map<nat, nat>>, prevN: nat,
                                         numColors: nat)
    requires forall k | 0 <= k < |pairs| :: pairs[k].1 < prevN
    requires forall k, l | 0 <= k < l < |pairs| :: pairs[k].0 != pairs[l].0
    requires prevN > 0 ==> prev.Some? && forall j | 0 <= j < prevN :: j in prev.value && prev.value[j] < numColors
    ensures forall k | 0 <= k < |pairs| && dist(pairs[k].0, pairs[k].1) < MinMatchDist ::
      pairs[k].0 in Inherited(pairs, dist, prev) && Inherited(pairs, dist, prev)[pairs[k].0] == prev.value[pairs[k].1]
    ensures forall p | p in Inherited(pairs, dist, prev) ::
      Inherited(pairs, dist, prev)[p] < numColors && exists k | 0 <= k < |pairs| :: pairs[k].0 == p
  {
    if |pairs| > 0 {
      var init := pairs[..|pairs| - 1];
      InheritedSpec(init, dist, prev, prevN, numColors);
      forall p | p in Inherited(pairs, dist, prev)
        ensures exists k | 0 <= k < |pairs| :: pairs[k].0 == p
      {
        if p in Inherited(init, dist, prev) {
          var k :| 0 <= k < |init| && init[k].0 == p;
          assert pairs[k].0 == p;
        }
      }
    }
  }

  /** The lines of people `0 .. pidx-1` with the colours they were given. */
  function AllLines(personConf: seq<seq<(real, real)>>, segments: seq<(nat, nat)>, colors: map<nat, nat>, b: Bounds, pidx: nat)
    : seq<Line>
    requires pidx <= |personConf|
    requires forall p | 0 <= p < |personConf| :: SegmentsInRange(personConf[p], segments)
    requires forall p | 0 <= p < pidx :: p in colors
  {
    if pidx == 0 then []
    else AllLines(personConf, segments, colors, b, pidx - 1) +
         PersonLines(pidx - 1, personConf[pidx - 1], segments, colors[pidx - 1], b)
  }

  lemma AllLinesNext(personConf: seq<seq<(real, real)>>, segments: seq<(nat, nat)>, colors: map<nat, nat>, b: Bounds, pidx: nat)
    requires pidx < |personConf|
    requires forall p | 0 <= p < |personConf| :: SegmentsInRange(personConf[p], segments)
    requires forall p | 0 <= p <= pidx :: p in colors
    ensures AllLines(personConf, segments, colors, b, pidx + 1) ==
            AllLines(personConf, segments, colors, b, pidx) + PersonLines(pidx, personConf[pidx], segments, colors[pidx], b)
  {
  }

  /** Colouring person `q` does not change the lines of the people before it. */
  lemma {:induction false} AllLinesUnchanged(personConf: seq<seq<(real, real)>>, segments: seq<(nat, nat)>, colors: map<nat, nat>,
                                           pidx: nat, q: nat, c: nat, b: Bounds)
    requires pidx <= q && pidx <= |personConf|
    requires forall p | 0 <= p < |personConf| :: SegmentsInRange(personConf[p], segments)
    requires forall p | 0 <= p < pidx :: p in colors
    ensures AllLines(personConf, segments, colors[q := c], b, pidx) == AllLines(personConf, segments, colors, b, pidx)
  {
    if pidx > 0 {
      AllLinesUnchanged(personConf, segments, colors, pidx - 1, q, c, b);
      assert colors[q := c][pidx - 1] == colors[pidx - 1];
    }
  }
}
