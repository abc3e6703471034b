/** The animated particle background: a field of particles that drift with a
    fixed velocity, respawn at random when they leave the canvas, and are
    joined by a line when two of them are close. Drawing itself is not part
    of the model; only the bookkeeping behind it is. */
module Particles {

  /** Largest number of particles in a field. */
  const MaxParticles: nat := 80
  /** Canvas area (square pixels) per particle. */
  const AreaPerParticle: nat := 15000
  /** Two particles closer than this (pixels) are linked; compared squared. */
  const LinkDistance: nat := 150

  /** The six `Math.random()` draws a reset consumes, in the order it makes them. */
  datatype Draws = Draws(x: real, y: real, size: real, speedX: real, speedY: real, opacity: real)

  predicate Unit(r: real) {
    0.0 <= r < 1.0
  }

  /** What `Math.random()` guarantees of each draw. */
  predicate AllUnit(d: Draws) {
    Unit(d.x) && Unit(d.y) && Unit(d.size) && Unit(d.speedX) && Unit(d.speedY) && Unit(d.opacity)
  }

  /** The fields of one particle. */
  datatype ParticleState = ParticleState(x: real, y: real, size: real, speedX: real, speedY: real, opacity: real)

  /** The position lies on the canvas, edges included. */
  predicate OnCanvas(p: ParticleState, width: nat, height: nat) {
    0.0 <= p.x <= width as real && 0.0 <= p.y <= height as real
  }

  /** The ranges a reset draws size, velocity and opacity from. */
  predicate Styled(p: ParticleState) {
    0.5 <= p.size < 2.5 &&
    -0.2 <= p.speedX < 0.2 && -0.2 <= p.speedY < 0.2 &&
    0.1 <= p.opacity < 0.6
  }

  /** `Math.random() * w`: a uniform point of [0, w), or 0 on an empty side. */
  function Scale(r: real, w: nat): (s: real)
    requires Unit(r)
    ensures 0.0 <= s <= w as real
    ensures w > 0 ==> s < w as real
  {
    var s := r * w as real;
    ScaleBound(r, w, s);
    s
  }

  lemma ScaleBound(r: real, w: nat, s: real)
    requires Unit(r) && s == r * w as real
    ensures 0.0 <= s <= w as real
    ensures w > 0 ==> s < w as real
  {
    var wr := w as real;
    assert 0.0 <= r * wr;
    if w > 0 {
      assert (1.0 - r) * wr > 0.0;
      assert (1.0 - r) * wr == wr - r * wr;
    } else {
      assert r * wr == 0.0;
    }
  }

  /** The particle a reset produces from six draws on a canvas of the given
      size: a position on the canvas (strictly inside on each side that is
      not empty) and size, velocity and opacity in their ranges. */
  function ResetState(d: Draws, width: nat, height: nat): (p: ParticleState)
    requires AllUnit(d)
    ensures OnCanvas(p, width, height)
    ensures width > 0 ==> p.x < width as real
    ensures height > 0 ==> p.y < height as real
    ensures Styled(p)
  {
    ParticleState(Scale(d.x, width), Scale(d.y, height),
                  d.size * 2.0 + 0.5,
                  (d.speedX - 0.5) * 0.4, (d.speedY - 0.5) * 0.4,
                  d.opacity * 0.5 + 0.1)
  }

  /** The moved position of p leaves the canvas. */
  predicate Escapes(p: ParticleState, width: nat, height: nat): (r: bool)
    ensures r <==> !OnCanvas(p.(x := p.x + p.speedX, y := p.y + p.speedY), width, height)
  {
    var x := p.x + p.speedX;
    var y := p.y + p.speedY;
    x < 0.0 || x > width as real || y < 0.0 || y > height as real
  }

  /** One frame's move: advance by the velocity, and respawn from the draws
      when the moved position has left the canvas. The result is always on
      the canvas, keeps the reset ranges, and either is the reset particle or
      differs from p only by one velocity step in position. */
  function UpdateState(p: ParticleState, d: Draws, width: nat, height: nat): (q: ParticleState)
    requires AllUnit(d)
    ensures OnCanvas(q, width, height)
    ensures Styled(p) ==> Styled(q)
    ensures q == ResetState(d, width, height) || q == p.(x := p.x + p.speedX, y := p.y + p.speedY)
  {
    var moved := p.(x := p.x + p.speedX, y := p.y + p.speedY);
    if Escapes(p, width, height) then ResetState(d, width, height) else moved
  }

  /** The number of particles a canvas of the given size holds: the whole
      number of particle areas that fit on it, capped. */
  function FieldSize(width: nat, height: nat): (n: nat)
    ensures n <= MaxParticles
    ensures n * AreaPerParticle <= width * height
    ensures n < MaxParticles ==> width * height < (n + 1) * AreaPerParticle
  {
    var fit := (width * height) / AreaPerParticle;
    if MaxParticles < fit then MaxParticles else fit
  }

  /** A particle position. */
  type Point = (real, real)

  /** The two positions are closer than the link distance: the squared
      distance is compared with the squared threshold. */
  predicate Close(a: Point, b: Point) {
    var dx := a.0 - b.0;
    var dy := a.1 - b.1;
    dx * dx + dy * dy < (LinkDistance * LinkDistance) as real
  }

  /** A positive times a positive is positive. */
  lemma ProductSign(x: real, y: real, z: real)
    requires 0.0 < x && 0.0 < y && z == x * y
    ensures 0.0 < z
  {
  }

  /** Squaring keeps the order of non-negative reals. */
  lemma SquareMonotone(u: real, v: real)
    requires 0.0 <= u && 0.0 <= v
    ensures u < v <==> u * u < v * v
  {
    var d, t := v - u, v + u;
    assert v * v - u * u == d * t;
    if u < v {
      ProductSign(d, t, d * t);
    } else if u > v {
      ProductSign(-d, t, (-d) * t);
      assert (-d) * t == -(d * t);
    }
  }

  /** Comparing squares is the distance test: for any non-negative dist
      whose square is the squared distance (the square root), dist is below
      the link distance exactly when the positions are close. The test is
      symmetric, and a position is close to itself. */
  lemma {:induction false} CloseIsDistanceTest(a: Point, b: Point, dist: real)
    requires 0.0 <= dist
    requires dist * dist == (a.0 - b.0) * (a.0 - b.0) + (a.1 - b.1) * (a.1 - b.1)
    ensures Close(a, b) <==> dist < LinkDistance as real
    ensures Close(a, b) <==> Close(b, a)
    ensures Close(a, a)
  {
    var l := LinkDistance as real;
    assert (LinkDistance * LinkDistance) as real == l * l;
    assert Close(a, b) <==> dist * dist < l * l;
    SquareMonotone(dist, l);
    assert (b.0 - a.0) * (b.0 - a.0) == (a.0 - b.0) * (a.0 - b.0);
    assert (b.1 - a.1) * (b.1 - a.1) == (a.1 - b.1) * (a.1 - b.1);
  }

  /** The positions of the particles, in order. */
  function Positions(ps: seq<Particle>): (pts: seq<Point>)
    reads ps
    ensures |pts| == |ps|
    ensures forall k :: 0 <= k < |ps| ==> pts[k] == (ps[k].x, ps[k].y)
  {
    seq(|ps|, k requires 0 <= k < |ps| reads ps => (ps[k].x, ps[k].y))
  }

  /** Lexicographic order on index pairs, the order the line pass visits them in. */
  predicate Before(a: (nat, nat), b: (nat, nat)) {
    a.0 < b.0 || (a.0 == b.0 && a.1 < b.1)
  }

  predicate Increasing(s: seq<(nat, nat)>) {
    forall k, l :: 0 <= k < l < |s| ==> Before(s[k], s[l])
  }

  /** The pairs (a, a+1), ..., (a, j-1): the inner loop for particle a, up to j. */
  function Row(a: nat, j: nat): seq<(nat, nat)>
    decreases j
  {
    if j <= a + 1 then [] else Row(a, j - 1) + [(a, j - 1)]
  }

  /** The pairs the line pass visits for the first i particles of n. */
  function PairsBelow(n: nat, i: nat): seq<(nat, nat)>
  {
    if i == 0 then [] else PairsBelow(n, i - 1) + Row(i - 1, n)
  }

  lemma {:induction false} RowFacts(a: nat, j: nat)
    ensures forall e :: e in Row(a, j) <==> e.0 == a && a < e.1 < j
    ensures Increasing(Row(a, j))
    decreases j
  {
    if j > a + 1 {
      RowFacts(a, j - 1);
    }
  }

  /** The first i rows visit every pair (a, b) with a < i and a < b < n, each
      once and in lexicographic order. */
  lemma {:induction false} PairsBelowFacts(n: nat, i: nat)
    ensures forall e :: e in PairsBelow(n, i) <==> e.0 < i && e.0 < e.1 < n
    ensures Increasing(PairsBelow(n, i))
  {
    if i > 0 {
      PairsBelowFacts(n, i - 1);
      RowFacts(i - 1, n);
      var left, right := PairsBelow(n, i - 1), Row(i - 1, n);
      forall k, l | 0 <= k < l < |left + right|
        ensures Before((left + right)[k], (left + right)[l])
      {
        if l >= |left| && k < |left| {
          assert left[k] in left;
          assert right[l - |left|] in right;
        }
      }
    }
  }

  /** The line pass over n particles visits exactly the pairs of distinct
      indices with the smaller first, each once, in lexicographic order. */
  lemma AllPairsOnce(n: nat)
    ensures forall e :: e in PairsBelow(n, n) <==> e.0 < e.1 < n
    ensures Increasing(PairsBelow(n, n))
  {
    PairsBelowFacts(n, n);
  }

  /** The pairs of s, in order, whose positions are close. */
  function Linked(pts: seq<Point>, s: seq<(nat, nat)>): seq<(nat, nat)>
  {
    if s == [] then []
    else
      var e := s[|s| - 1];
      Linked(pts, s[..|s| - 1]) +
        if e.0 < |pts| && e.1 < |pts| && Close(pts[e.0], pts[e.1]) then [e] else []
  }

  lemma LinkedAppend(pts: seq<Point>, s: seq<(nat, nat)>, e: (nat, nat))
    ensures Linked(pts, s + [e]) ==
              Linked(pts, s) + if e.0 < |pts| && e.1 < |pts| && Close(pts[e.0], pts[e.1]) then [e] else []
  {
    assert (s + [e])[..|s|] == s;
  }

  lemma {:induction false} LinkedConcat(pts: seq<Point>, s: seq<(nat, nat)>, t: seq<(nat, nat)>)
    ensures Linked(pts, s + t) == Linked(pts, s) + Linked(pts, t)
    decreases |t|
  {
    if t == [] {
      assert s + t == s;
    } else {
      var init, e := t[..|t| - 1], t[|t| - 1];
      assert t == init + [e];
      assert s + t == (s + init) + [e];
      LinkedAppend(pts, s + init, e);
      LinkedAppend(pts, init, e);
      LinkedConcat(pts, s, init);
    }
  }

  /** Linking keeps exactly the close pairs of s and keeps their order. */
  lemma {:induction false} LinkedFacts(pts: seq<Point>, s: seq<(nat, nat)>)
    ensures forall e :: e in Linked(pts, s) <==>
              e in s && e.0 < |pts| && e.1 < |pts| && Close(pts[e.0], pts[e.1])
    ensures Increasing(s) ==> Increasing(Linked(pts, s))
    decreases |s|
  {
    if s != [] {
      var init, e := s[..|s| - 1], s[|s| - 1];
      assert s == init + [e];
      LinkedFacts(pts, init);
      if Increasing(s) {
        var l := Linked(pts, s);
        forall k, m | 0 <= k < m < |l| ensures Before(l[k], l[m]) {
          if m == |l| - 1 && l[m] == e && m >= |Linked(pts, init)| {
            assert l[k] in Linked(pts, init);
            var x :| 0 <= x < |init| && init[x] == l[k];
            assert s[x] == l[k];
          }
        }
      }
    }
  }

  /** What the line pass over n positions computes: every pair of distinct
      indices, smaller first, once and in order; and the close ones among
      them, once and in order. */
  lemma LinePassFacts(pts: seq<Point>)
    ensures forall e :: e in PairsBelow(|pts|, |pts|) <==> e.0 < e.1 < |pts|
    ensures Increasing(PairsBelow(|pts|, |pts|))
    ensures forall e :: e in Linked(pts, PairsBelow(|pts|, |pts|)) <==>
              e.0 < e.1 < |pts| && Close(pts[e.0], pts[e.1])
    ensures Increasing(Linked(pts, PairsBelow(|pts|, |pts|)))
  {
    AllPairsOnce(|pts|);
    LinkedFacts(pts, PairsBelow(|pts|, |pts|));
  }

  /** The nested loop of the line drawing over the particle positions pts:
      row by row, the pairs (i, j) with i < j, keeping the close ones. */
  method LinePass(pts: seq<Point>) returns (examined: seq<(nat, nat)>, links: seq<(nat, nat)>)
    ensures examined == PairsBelow(|pts|, |pts|)
    ensures links == Linked(pts, examined)
  {
    var n := |pts|;
    examined, links := [], [];
    var i := 0;
    while i < n
      invariant 0 <= i <= n
      invariant examined == PairsBelow(n, i)
      invariant links == Linked(pts, examined)
    {
      var row, rowLinks := RowPass(pts, i);
      LinkedConcat(pts, examined, row);
      examined, links := examined + row, links + rowLinks;
      i := i + 1;
    }
  }

  /** The inner loop of the line drawing for particle i: the pairs (i, j)
      with i < j < |pts| in order, and those of them that are close. */
  method RowPass(pts: seq<Point>, i: nat) returns (row: seq<(nat, nat)>, rowLinks: seq<(nat, nat)>)
    requires i < |pts|
    ensures row == Row(i, |pts|)
    ensures rowLinks == Linked(pts, row)
  {
    row, rowLinks := [], [];
    var j := i + 1;
    while j < |pts|
      invariant i + 1 <= j <= |pts|
      invariant row == Row(i, j)
      invariant rowLinks == Linked(pts, row)
    {
      var e := (i, j);
      assert Row(i, j + 1) == row + [e];
      LinkedAppend(pts, row, e);
      if Close(pts[i], pts[j]) {
        rowLinks := rowLinks + [e];
      }
      row := row + [e];
      j := j + 1;
    }
  }

  class Particle {
    var x: real
    var y: real
    var size: real
    var speedX: real
    var speedY: real
    var opacity: real

    function State(): ParticleState
      reads this
    {
      ParticleState(x, y, size, speedX, speedY, opacity)
    }

    constructor (d: Draws, width: nat, height: nat)
      requires AllUnit(d)
      ensures State() == ResetState(d, width, height)
    {
      new;
      Reset(d, width, height);
    }

    /** Respawn uniformly on the canvas with a fresh size, velocity and opacity. */
    method Reset(d: Draws, width: nat, height: nat)
      requires AllUnit(d)
      modifies this
      ensures State() == ResetState(d, width, height)
    {
      x := Scale(d.x, width);
      y := Scale(d.y, height);
      size := d.size * 2.0 + 0.5;
      speedX := (d.speedX - 0.5) * 0.4;
      speedY := (d.speedY - 0.5) * 0.4;
      opacity := d.opacity * 0.5 + 0.1;
    }

    /** Move one velocity step; respawn when the move leaves the canvas. */
    method Update(d: Draws, width: nat, height: nat)
      requires AllUnit(d)
      modifies this
      ensures State() == UpdateState(old(State()), d, width, height)
      ensures OnCanvas(State(), width, height)
      ensures !Escapes(old(State()), width, height) ==>
                x == old(x) + old(speedX) && y == old(y) + old(speedY) &&
                size == old(size) && speedX == old(speedX) && speedY == old(speedY) &&
                opacity == old(opacity)
      ensures Escapes(old(State()), width, height) ==> State() == ResetState(d, width, height)
    {
      x := x + speedX;
      y := y + speedY;
      if x < 0.0 || x > width as real || y < 0.0 || y > height as real {
        Reset(d, width, height);
      }
    }
  }

  /** The canvas and the particles on it. */
  class ParticleField {
    var width: nat
    var height: nat
    var particles: seq<Particle>

    /** The particles are distinct objects, all on the canvas and in the reset ranges. */
    ghost predicate Valid()
      reads this, particles
    {
      (forall i, j :: 0 <= i < j < |particles| ==> particles[i] != particles[j]) &&
      (forall i :: 0 <= i < |particles| ==>
         OnCanvas(particles[i].State(), width, height) && Styled(particles[i].State()))
    }

    /** Page start: size the canvas, then build the field. */
    constructor (width: nat, height: nat, draws: seq<Draws>)
      requires forall k :: 0 <= k < |draws| ==> AllUnit(draws[k])
      requires |draws| >= FieldSize(width, height)
      ensures Valid()
      ensures this.width == width && this.height == height
      ensures |particles| == FieldSize(width, height)
      ensures forall k :: 0 <= k < |particles| ==>
                fresh(particles[k]) && particles[k].State() == ResetState(draws[k], width, height)
    {
      this.width, this.height := width, height;
      particles := [];
      new;
      InitParticles(draws);
    }

    /** Discard the current particles and build as many new ones as the
        canvas area allows, the k-th from the k-th set of draws. */
    method InitParticles(draws: seq<Draws>)
      requires forall k :: 0 <= k < |draws| ==> AllUnit(draws[k])
      requires |draws| >= FieldSize(width, height)
      modifies this
      ensures Valid()
      ensures width == old(width) && height == old(height)
      ensures |particles| == FieldSize(width, height)
      ensures forall k :: 0 <= k < |particles| ==>
                fresh(particles[k]) && particles[k].State() == ResetState(draws[k], width, height)
    {
      particles := [];
      var count := FieldSize(width, height);
      var i := 0;
      while i < count
        invariant 0 <= i <= count && |particles| == i
        invariant width == old(width) && height == old(height)
        invariant forall k :: 0 <= k < i ==>
                    fresh(particles[k]) && particles[k].State() == ResetState(draws[k], width, height)
        invariant forall k, l :: 0 <= k < l < i ==> particles[k] != particles[l]
      {
        var p := new Particle(draws[i], width, height);
        particles := particles + [p];
        i := i + 1;
      }
    }

    /** The update half of one animation frame: every particle in order, the
        k-th with the k-th set of draws. */
    method UpdateAll(draws: seq<Draws>)
      requires Valid()
      requires |draws| >= |particles|
      requires forall k :: 0 <= k < |draws| ==> AllUnit(draws[k])
      modifies particles
      ensures Valid()
      ensures forall k :: 0 <= k < |particles| ==>
                particles[k].State() == UpdateState(old(particles[k].State()), draws[k], width, height)
    {
      var i := 0;
      while i < |particles|
        invariant 0 <= i <= |particles|
        invariant forall k :: 0 <= k < i ==>
                    particles[k].State() == UpdateState(old(particles[k].State()), draws[k], width, height)
        invariant forall k :: i <= k < |particles| ==> particles[k].State() == old(particles[k].State())
      {
        particles[i].Update(draws[i], width, height);
        i := i + 1;
      }
    }

    /** One animation frame: update every particle, then run the line pass
        over the positions the update left. */
    method Frame(draws: seq<Draws>) returns (examined: seq<(nat, nat)>, links: seq<(nat, nat)>)
      requires Valid()
      requires |draws| >= |particles|
      requires forall k :: 0 <= k < |draws| ==> AllUnit(draws[k])
      modifies particles
      ensures Valid()
      ensures forall k :: 0 <= k < |particles| ==>
                particles[k].State() == UpdateState(old(particles[k].State()), draws[k], width, height)
      ensures examined == PairsBelow(|particles|, |particles|)
      ensures links == Linked(Positions(particles), examined)
      ensures forall e :: e in examined <==> e.0 < e.1 < |particles|
      ensures Increasing(examined)
      ensures forall e :: e in links <==>
                e.0 < e.1 < |particles| &&
                Close((particles[e.0].x, particles[e.0].y), (particles[e.1].x, particles[e.1].y))
      ensures Increasing(links)
    {
      UpdateAll(draws);
      examined, links := Links();
    }

    /** The pair pass of the line drawing: `examined` lists the index pairs
        visited, `links` those close enough for a line. */
    method Links() returns (examined: seq<(nat, nat)>, links: seq<(nat, nat)>)
      ensures examined == PairsBelow(|particles|, |particles|)
      ensures links == Linked(Positions(particles), examined)
      // every pair of distinct particles is examined once, in order, never a particle with itself
      ensures forall e :: e in examined <==> e.0 < e.1 < |particles|
      ensures Increasing(examined)
      // a line is drawn exactly for the pairs closer than the link distance, each once
      ensures forall e :: e in links <==>
                e.0 < e.1 < |particles| &&
                Close((particles[e.0].x, particles[e.0].y), (particles[e.1].x, particles[e.1].y))
      ensures Increasing(links)
    {
      var pts := Positions(particles);
      examined, links := LinePass(pts);
      LinePassFacts(pts);
    }
  }
}
