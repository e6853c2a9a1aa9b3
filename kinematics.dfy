/**
 * The expression-only parts of a Dot (dots.js:190-301) and the reflection
 * rule of Dot.move (dots.js:130-158), as functions of plain values.
 */
module Kinematics {
  import opened Wrappers
  import opened JsMath

  /**
   * The record calculateVector and calculateDeltaVector return: the point one
   * step ahead, the step itself, its length and the heading it was made from.
   */
  datatype Vector = Vector(x: real, y: real, xOff: real, yOff: real, distance: real, direction: real)

  /** A JavaScript value passed where a number is expected. */
  datatype JsValue = Number(value: real) | NaN | Undefined

  /** `undefined + k`: reading a property the object does not have and adding to it gives NaN. */
  function UndefinedPlus(k: real): JsValue {
    NaN
  }

  /**
   * `arg || fallback` (and `arg ? arg : fallback`) on a number: an argument
   * that is 0, NaN or undefined is falsy, and the fallback is used instead.
   */
  function OrElse(arg: JsValue, fallback: real): (d: real)
    ensures arg.Number? && arg.value != 0.0 ==> d == arg.value
    ensures !(arg.Number? && arg.value != 0.0) ==> d == fallback
  {
    if arg.Number? && arg.value != 0.0 then arg.value else fallback
  }

  /** `v` is the step of one time unit for a dot moving at `speed` along `direction`. */
  predicate Aligned(num: Numerics, v: Vector, speed: real, direction: real) {
    && v.xOff == speed * num.cos(direction)
    && v.yOff == speed * num.sin(direction)
    && v.distance == speed
    && v.direction == direction
  }

  /**
   * Dot.calculateVector (dots.js:236-243): the step of one time unit along
   * the given heading, or along the dot's own heading when the argument is
   * falsy, and the point it leads to.
   */
  function CalculateVector(num: Numerics, x: real, y: real, speed: real, own: real, arg: JsValue): (v: Vector)
    ensures Aligned(num, v, speed, OrElse(arg, own))
    ensures v.x == x + v.xOff && v.y == y + v.yOff
  {
    var direction := OrElse(arg, own);
    var dist := speed * 1.0;
    var xOff := dist * num.cos(direction);
    var yOff := dist * num.sin(direction);
    Vector(x + xOff, y + yOff, xOff, yOff, dist, direction)
  }

  /**
   * The lookahead of registerDotSectors asks for `undefined + 90 * v`, which
   * is NaN for every `v`, so each of its four iterations computes the same
   * point: one step ahead along the dot's own heading.
   */
  lemma LookaheadIgnoresTurn(num: Numerics, x: real, y: real, speed: real, own: real, v: int)
    ensures CalculateVector(num, x, y, speed, own, UndefinedPlus(90.0 * v as real))
         == CalculateVector(num, x, y, speed, own, Undefined)
  {
  }

  /** Dot.calculateDeltaVector (dots.js:212-221): the cached unit step scaled to `delta` time units. */
  function CalculateDeltaVector(x: real, y: real, vector: Vector, speed: real, direction: real, delta: real): (v: Vector)
    ensures v.xOff == vector.xOff * delta && v.yOff == vector.yOff * delta
    ensures v.x == x + v.xOff && v.y == y + v.yOff
  {
    Vector(x + vector.xOff * delta, y + vector.yOff * delta, vector.xOff * delta, vector.yOff * delta, speed * delta, direction)
  }

  /** Dot.calculateDistance (dots.js:251-255): the Euclidean distance to a point. */
  function CalculateDistance(num: Numerics, x: real, y: real, px: real, py: real): real {
    var dx := x - px;
    var dy := y - py;
    num.sqrt(dx * dx + dy * dy)
  }

  /**
   * The neighbour test `distance <= safeRange` needs no square root: for a
   * non-negative range it is the comparison of squares, and it is symmetric.
   */
  lemma DistanceWithin(num: Numerics, x: real, y: real, px: real, py: real, range: real)
    requires SqrtFacts(num) && 0.0 <= range
    ensures CalculateDistance(num, x, y, px, py) <= range
        <==> (x - px) * (x - px) + (y - py) * (y - py) <= range * range
    ensures CalculateDistance(num, x, y, px, py) == CalculateDistance(num, px, py, x, y)
  {
    var q := (x - px) * (x - px) + (y - py) * (y - py);
    assert q == (px - x) * (px - x) + (py - y) * (py - y);
    assert 0.0 <= (x - px) * (x - px) && 0.0 <= (y - py) * (y - py);
    var s := num.sqrt(q);
    assert 0.0 <= s && s * s == q;
    SquaresOrdered(s, range);
  }

  /** For non-negative numbers, comparing them is comparing their squares. */
  lemma SquaresOrdered(s: real, r: real)
    requires 0.0 <= s && 0.0 <= r
    ensures s <= r <==> s * s <= r * r
  {
    if s < r {
      SquareStrict(s, r);
    } else if r < s {
      SquareStrict(r, s);
    }
  }

  /** Squaring is strictly increasing on the non-negative numbers. */
  lemma SquareStrict(r: real, s: real)
    requires 0.0 <= r < s
    ensures r * r < s * s
  {
    calc {
      r * r;
      <= r * s;
      < s * s;
    }
  }

  /**
   * Dot.calculateAvoidanceAngle (dots.js:190-197): the angle between the
   * line to the other dot and the line to a point three radii beyond it,
   * with IEEE division and Math.atan kept uninterpreted.
   */
  function AvoidanceAngle(num: Numerics, x: real, y: real, radius: real, ox: real, oy: real): real {
    var m1 := num.quot(oy - y, ox - x);
    var x2 := ox + radius * 3.0;
    var y2 := oy + radius * 3.0;
    var m2 := num.quot(y2 - y, x2 - x);
    num.atan(num.quot(m1 - m2, 1.0 - m1 * m2))
  }

  /** How far a dot's centre is outside the usable region on each axis. */
  datatype Overshoot = Overshoot(x: real, y: real)

  /** True when the centre lies in [radius, width - radius] x [radius, height - radius]. */
  predicate InBounds(x: real, y: real, radius: real, width: real, height: real) {
    radius <= x <= width - radius && radius <= y <= height - radius
  }

  /**
   * Dot.isOutOfBounds (dots.js:275-301): `false` (here None) when the centre
   * is in the usable region, otherwise the overshoot on each axis.
   */
  function IsOutOfBounds(x: real, y: real, radius: real, width: real, height: real): (r: Option<Overshoot>)
    ensures r.None? <==> InBounds(x, y, radius, width, height)
  {
    var minX := radius;
    var minY := radius;
    var maxX := width - radius;
    var maxY := height - radius;
    if x >= minX && x <= maxX && y >= minY && y <= maxY then None
    else
      var xOff := if x < minX then x - minX else if x > maxX then x - maxX else 0.0;
      var yOff := if y < minY then y - minY else if y > maxY then y - maxY else 0.0;
      Some(Overshoot(xOff, yOff))
  }

  /**
   * Each overshoot component is negative, positive or zero as the axis
   * undershot, overshot or is in range, at least one is not zero, and taking
   * it away puts that coordinate on the edge it crossed.
   */
  lemma OvershootSigns(x: real, y: real, radius: real, width: real, height: real)
    requires IsOutOfBounds(x, y, radius, width, height).Some?
    ensures var ob := IsOutOfBounds(x, y, radius, width, height).value;
      && (ob.x < 0.0 <==> x < radius)
      && (ob.x > 0.0 <==> radius <= x && width - radius < x)
      && (ob.x == 0.0 <==> radius <= x <= width - radius)
      && (ob.y < 0.0 <==> y < radius)
      && (ob.y > 0.0 <==> radius <= y && height - radius < y)
      && (ob.y == 0.0 <==> radius <= y <= height - radius)
      && (ob.x != 0.0 || ob.y != 0.0)
      && x - ob.x == (if x < radius then radius else if width - radius < x then width - radius else x)
      && y - ob.y == (if y < radius then radius else if height - radius < y then height - radius else y)
  {
  }

  /**
   * The clamp of generateRandomDot (dots.js:550-553): when the canvas is at
   * least one diameter wide and high, offsetting by the negated overshoot
   * puts the dot in bounds.
   */
  lemma ClampPutsInBounds(x: real, y: real, radius: real, width: real, height: real)
    requires 2.0 * radius <= width && 2.0 * radius <= height
    ensures var ob := IsOutOfBounds(x, y, radius, width, height);
      ob.Some? ==> InBounds(x - ob.value.x, y - ob.value.y, radius, width, height)
  {
    if IsOutOfBounds(x, y, radius, width, height).Some? {
      OvershootSigns(x, y, radius, width, height);
    }
  }

  /** The -1, 0 or 1 of `ob.x > 0 ? 1 : ob.x < 0 ? -1 : 0`. */
  function Sign(v: real): (s: int)
    ensures s == 1 <==> v > 0.0
    ensures s == -1 <==> v < 0.0
    ensures s == 0 <==> v == 0.0
  {
    if v > 0.0 then 1 else if v < 0.0 then -1 else 0
  }

  /** `direction % halfPI === 0`: the heading is a whole number of quarter turns. */
  predicate OnQuarterTurn(num: Numerics, d: real)
    requires num.Valid()
  {
    Rem(d, num.HalfPi()) == 0.0
  }

  /** The correction of dots.js:139-151, chosen with the X axis first. */
  function Correction(num: Numerics, nX: int, nY: int): real {
    if nX == 1 then num.HalfPi()
    else if nX == -1 then -num.HalfPi()
    else if nY == 1 then 0.0
    else if nY == -1 then -num.pi
    else 0.0
  }

  /**
   * The heading after the reflection of dots.js:132-156: a half turn
   * (`rotate(Math.PI)`) for a heading on a quarter turn or an overshoot of
   * the same sign on both axes, otherwise `rotateTo(2π - ((d + c) % 2π) - c)`.
   */
  function ReflectedDirection(num: Numerics, d: real, ob: Overshoot): real
    requires num.Valid()
  {
    if OnQuarterTurn(num, d) then Rem(d + num.pi, num.TwoPi())
    else
      var nX := Sign(ob.x);
      var nY := Sign(ob.y);
      if nX + nY == 2 || nX + nY == -2 then Rem(d + num.pi, num.TwoPi())
      else
        var correction := Correction(num, nX, nY);
        var dir := Rem(d + correction, num.TwoPi());
        Rem(num.TwoPi() - dir - correction, num.TwoPi())
  }

  /** A heading that passes the quarter-turn test is a whole multiple of π/2. */
  lemma QuarterTurnIsMultiple(num: Numerics, d: real)
    requires num.Valid() && OnQuarterTurn(num, d)
    ensures Congruent(d, 0.0, num.HalfPi())
  {
    RemCongruent(d, num.HalfPi());
    var k :| Rem(d, num.HalfPi()) - d == Turns(k, num.HalfPi());
    assert d - 0.0 == Turns(-k, num.HalfPi());
  }

  /**
   * The reflection rule is a mirror: a half turn for a quarter-turn heading
   * or a corner hit, `π - d` (mirror in a vertical edge) when only X
   * overshot or the two overshoots differ in sign, and `-d` (mirror in a
   * horizontal edge) when only Y overshot; always modulo a full turn, and the
   * result lies strictly between -2π and 2π.
   */
  lemma ReflectionLaw(num: Numerics, d: real, ob: Overshoot)
    requires num.Valid() && (ob.x != 0.0 || ob.y != 0.0)
    ensures var r := ReflectedDirection(num, d, ob);
      && -num.TwoPi() < r < num.TwoPi()
      && (OnQuarterTurn(num, d) || Sign(ob.x) == Sign(ob.y) ==> Congruent(r, d + num.pi, num.TwoPi()))
      && (!OnQuarterTurn(num, d) && Sign(ob.x) != Sign(ob.y) && ob.x != 0.0 ==> Congruent(r, num.pi - d, num.TwoPi()))
      && (!OnQuarterTurn(num, d) && ob.x == 0.0 ==> Congruent(r, -d, num.TwoPi()))
  {
    var m := num.TwoPi();
    var nX := Sign(ob.x);
    var nY := Sign(ob.y);
    if OnQuarterTurn(num, d) || nX + nY == 2 || nX + nY == -2 {
      RemBounds(d + num.pi, m);
      RemCongruent(d + num.pi, m);
    } else {
      var c := Correction(num, nX, nY);
      CorrectedTurn(num, d, c);
      CorrectionTarget(num, d, nX, nY);
      var target := if nX != 0 then num.pi - d else -d;
      CongruentTrans(ReflectedDirection(num, d, ob), -(d + c) + (m - c), target, m);
    }
  }

  /** Where `2π - (d + c) - c` lands for each correction: on `π - d` for an X overshoot, on `-d` for a Y overshoot. */
  lemma CorrectionTarget(num: Numerics, d: real, nX: int, nY: int)
    requires num.Valid()
    requires -1 <= nX <= 1 && -1 <= nY <= 1 && (nX != 0 || nY != 0)
    ensures var m := num.TwoPi();
      var c := Correction(num, nX, nY);
      Congruent(-(d + c) + (m - c), if nX == 1 || nX == -1 then num.pi - d else -d, m)
  {
    var m := num.TwoPi();
    var c := Correction(num, nX, nY);
    var e := -(d + c) + (m - c);
    if nX == 1 {
      assert e == (num.pi - d) + Turns(0, m);
      CongruentShift(num.pi - d, 0, m);
    } else if nX == -1 {
      assert e == (num.pi - d) + Turns(1, m);
      CongruentShift(num.pi - d, 1, m);
    } else if nY == 1 {
      assert e == -d + Turns(1, m);
      CongruentShift(-d, 1, m);
    } else {
      assert nY == -1;
      assert e == -d + Turns(2, m);
      CongruentShift(-d, 2, m);
    }
  }

  /** `rotateTo(2π - ((d + c) % 2π) - c)` lands strictly inside a full turn, on `2π - (d + c) - c` modulo a full turn. */
  lemma CorrectedTurn(num: Numerics, d: real, c: real)
    requires num.Valid()
    ensures var m := num.TwoPi();
      var r := Rem(m - Rem(d + c, m) - c, m);
      -m < r < m && Congruent(r, -(d + c) + (m - c), m)
  {
    var m := num.TwoPi();
    var dir := Rem(d + c, m);
    RemBounds(m - dir - c, m);
    RemCongruent(m - dir - c, m);
    RemCongruent(d + c, m);
    CongruentAffine(dir, d + c, m, true, m - c);
    assert -dir + (m - c) == m - dir - c;
    CongruentTrans(Rem(m - dir - c, m), m - dir - c, -(d + c) + (m - c), m);
  }

  /** The position, heading and nothing else that one step of Dot.move changes. */
  datatype Motion = Motion(x: real, y: real, direction: real)

  /**
   * One step of Dot.move for a dot that does not avoid others
   * (dots.js:108-109, 130-158): the tentative step; if that leaves the usable
   * region, the reflection and an offset of twice the step back.
   */
  function Advance(num: Numerics, m: Motion, xOff: real, yOff: real, delta: real,
                   radius: real, width: real, height: real): Motion
    requires num.Valid()
  {
    Reflect(num, Motion(m.x + xOff * delta, m.y + yOff * delta, m.direction), xOff * delta, yOff * delta,
            radius, width, height)
  }

  /**
   * The out-of-bounds part of Dot.move (dots.js:130-158) on the tentative
   * position `t` reached by the step (dx, dy): unchanged when in bounds,
   * otherwise the reflected heading and twice the step back.
   */
  function Reflect(num: Numerics, t: Motion, dx: real, dy: real, radius: real, width: real, height: real): Motion
    requires num.Valid()
  {
    match IsOutOfBounds(t.x, t.y, radius, width, height)
    case None => t
    case Some(ob) => Motion(t.x - 2.0 * dx, t.y - 2.0 * dy, ReflectedDirection(num, t.direction, ob))
  }

  /**
   * After a step that overshot an edge, the dot ends one step behind where it
   * started, so on an axis where it started in range and then overshot it
   * ends strictly inside the edge it crossed.
   */
  lemma AdvancePushesBack(num: Numerics, m: Motion, xOff: real, yOff: real, delta: real,
                          radius: real, width: real, height: real)
    requires num.Valid()
    ensures var tx := m.x + xOff * delta;
      var ty := m.y + yOff * delta;
      var ob := IsOutOfBounds(tx, ty, radius, width, height);
      var r := Advance(num, m, xOff, yOff, delta, radius, width, height);
      && (ob.None? ==> r == Motion(tx, ty, m.direction))
      && (ob.Some? ==> r.x == m.x - xOff * delta && r.y == m.y - yOff * delta)
      && (ob.Some? && radius <= m.x <= width - radius && ob.value.x > 0.0 ==> r.x < m.x <= width - radius)
      && (ob.Some? && radius <= m.x <= width - radius && ob.value.x < 0.0 ==> radius <= m.x < r.x)
      && (ob.Some? && radius <= m.y <= height - radius && ob.value.y > 0.0 ==> r.y < m.y <= height - radius)
      && (ob.Some? && radius <= m.y <= height - radius && ob.value.y < 0.0 ==> radius <= m.y < r.y)
  {
    var tx := m.x + xOff * delta;
    var ty := m.y + yOff * delta;
    if IsOutOfBounds(tx, ty, radius, width, height).Some? {
      OvershootSigns(tx, ty, radius, width, height);
    }
  }

  /**
   * The step does not keep a dot inside the usable region: a dot in range
   * near a corner that overshoots the right edge is pushed back past the
   * `y = radius` edge by the same step.
   */
  lemma AdvanceMayLeaveBounds(num: Numerics)
    requires num.Valid()
    ensures InBounds(94.0, 5.5, 5.0, 100.0, 100.0)
    ensures var r := Advance(num, Motion(94.0, 5.5, 0.4), 2.0, 1.0, 1.0, 5.0, 100.0, 100.0);
      r.x == 92.0 && r.y == 4.5 && !InBounds(r.x, r.y, 5.0, 100.0, 100.0)
  {
  }
}
