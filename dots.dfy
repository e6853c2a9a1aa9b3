/**
 * The two classes of dots.js: Dot (dots.js:42-302), which moves, turns and
 * bounces off the canvas edges, and Engine (dots.js:328-556), which owns the
 * dots, the sector table they register in, and the run/stop state.
 *
 * The engine is the one object here. A dot is the value of its fields, held
 * in the engine's list at index `id - 1`; where the source changes a dot
 * through a reference (its own `this`, or the neighbour it turns), the engine
 * stores the changed value back at that index.
 */
module Dots {
  import opened Wrappers
  import opened JsMath
  import opened SectorKeys
  import opened SectorTable
  import opened Kinematics

  /** A fill style `rgba(red,green,blue,0.4)`, kept as its three channels. */
  datatype Colour = Rgba(red: int, green: int, blue: int)
  {
    /** The CSS string the dot is filled with. */
    function Css(): string {
      "rgba(" + IntString(red) + "," + IntString(green) + "," + IntString(blue) + ",0.4)"
    }
  }

  /**
   * The fields of a Dot (dots.js:42-58). `sectors` lists the keys of the cells
   * the dot last registered in, in the order they were added.
   */
  datatype Dot = Dot(
    id: int, x: real, y: real, radius: real, fillStyle: Colour, direction: real, speed: real,
    safeRange: real, showVector: bool, showInfo: bool, avoidEachOther: bool,
    vector: Vector, sectors: seq<Cell>)
  {
    /** Where the dot is and where it is heading. */
    function Motion(): Kinematics.Motion {
      Kinematics.Motion(x, y, direction)
    }

    /** The safe range is a diameter and the cached vector is the step for the current heading. */
    predicate Valid(num: Numerics) {
      safeRange == radius * 2.0 && Aligned(num, vector, speed, direction)
    }

    /** The cell of the dot's centre. */
    function OwnCell(size: real): Cell
      requires size != 0.0
    {
      GetSector(x, y, size)
    }

    /** The cell of the point one time unit ahead along the dot's heading. */
    function AheadCell(num: Numerics, size: real): Cell
      requires size != 0.0
    {
      var v := CalculateVector(num, x, y, speed, direction, Undefined);
      GetSector(v.x, v.y, size)
    }

    /** Dot.offset (dots.js:263-266): the dot shifted by (dx, dy), and nothing else changed. */
    function Offset(dx: real, dy: real): (r: Dot)
      ensures r.x - x == dx && r.y - y == dy
      ensures r == this.(x := r.x, y := r.y)
    {
      this.(x := x + dx, y := y + dy)
    }

    /** Dot.setVector (dots.js:227-229): the cached vector becomes the step for the current heading. */
    function SetVector(num: Numerics): (r: Dot)
      ensures Aligned(num, r.vector, speed, direction)
      ensures r == this.(vector := r.vector)
    {
      this.(vector := CalculateVector(num, x, y, speed, direction, Undefined))
    }

    /**
     * Dot.rotate (dots.js:168-171): the heading turned by `radians` and
     * reduced by JavaScript's `%` into (-2π, 2π), and the vector refreshed;
     * a valid dot stays valid.
     */
    function Rotate(num: Numerics, radians: real): (r: Dot)
      requires num.Valid()
      ensures -num.TwoPi() < r.direction < num.TwoPi()
      ensures Congruent(r.direction, direction + radians, num.TwoPi())
      ensures Aligned(num, r.vector, speed, r.direction)
      ensures r == this.(direction := r.direction, vector := r.vector)
      ensures Valid(num) ==> r.Valid(num)
    {
      RemBounds(direction + radians, num.TwoPi());
      RemCongruent(direction + radians, num.TwoPi());
      this.(direction := Rem(direction + radians, num.TwoPi())).SetVector(num)
    }

    /**
     * Dot.rotateTo (dots.js:178-181): the heading set to `radians` reduced
     * into (-2π, 2π), and the vector refreshed; a valid dot stays valid.
     */
    function RotateTo(num: Numerics, radians: real): (r: Dot)
      requires num.Valid()
      ensures -num.TwoPi() < r.direction < num.TwoPi()
      ensures Congruent(r.direction, radians, num.TwoPi())
      ensures -num.TwoPi() < radians < num.TwoPi() ==> r.direction == radians
      ensures Aligned(num, r.vector, speed, r.direction)
      ensures r == this.(direction := r.direction, vector := r.vector)
      ensures Valid(num) ==> r.Valid(num)
    {
      RemBounds(radians, num.TwoPi());
      RemCongruent(radians, num.TwoPi());
      RemOfSmall(radians, num.TwoPi());
      this.(direction := Rem(radians, num.TwoPi())).SetVector(num)
    }
  }

  /**
   * The Dot constructor (dots.js:42-59) up to its registration: the given
   * fields, a safe range of one diameter, both display flags on, avoidance
   * off, no cells yet, and the vector for the given heading.
   */
  function NewDot(num: Numerics, id: int, x: real, y: real, radius: real, fillStyle: Colour,
                  direction: real, speed: real): (d: Dot)
    ensures d.Valid(num) && d.sectors == []
    ensures d.id == id && d.x == x && d.y == y && d.radius == radius && d.fillStyle == fillStyle
    ensures d.direction == direction && d.speed == speed
    ensures d.showVector && d.showInfo && !d.avoidEachOther
  {
    Dot(id, x, y, radius, fillStyle, direction, speed, radius * 2.0, true, true, false,
        Vector(0.0, 0.0, 0.0, 0.0, 0.0, 0.0), []).SetVector(num)
  }

  /**
   * The out-of-bounds part of Dot.move (dots.js:130-158), statement by
   * statement: if the dot has left the usable region, a half turn or the
   * corrected turn, then twice the step back. It is the reflection rule
   * Reflect, the dot stays valid, and only position, heading and vector change.
   */
  method Bounce(num: Numerics, d: Dot, step: Vector, width: real, height: real) returns (r: Dot)
    requires num.Valid()
    ensures r.Motion() == Reflect(num, d.Motion(), step.xOff, step.yOff, d.radius, width, height)
    ensures r == d.(x := r.x, y := r.y, direction := r.direction, vector := r.vector)
    ensures d.Valid(num) ==> r.Valid(num)
  {
    r := d;
    var ob := IsOutOfBounds(r.x, r.y, r.radius, width, height);
    if ob.Some? {
      var halfPi := num.HalfPi();
      if Rem(r.direction, halfPi) == 0.0 {
        r := r.Rotate(num, num.pi);
      } else {
        var nX := Sign(ob.value.x);
        var nY := Sign(ob.value.y);
        if nX + nY == 2 || nX + nY == -2 {
          r := r.Rotate(num, num.pi);
        } else {
          var correction := 0.0;
          if nX == 1 {
            correction := halfPi;
          } else if nX == -1 {
            correction := -halfPi;
          } else if nY == 1 {
            correction := 0.0;
          } else if nY == -1 {
            correction := -num.pi;
          }
          var dir := Rem(r.direction + correction, num.TwoPi());
          r := r.RotateTo(num, num.TwoPi() - dir - correction);
        }
      }
      r := r.Offset(-(2.0 * step.xOff), -(2.0 * step.yOff));
    }
  }

  /** A step followed by the reflection is the move Advance describes. */
  lemma StepThenReflect(num: Numerics, m: Motion, xOff: real, yOff: real, delta: real, dx: real, dy: real,
                        t: Motion, r: Motion, radius: real, width: real, height: real)
    requires num.Valid() && dx == xOff * delta && dy == yOff * delta
    requires t == Motion(m.x + dx, m.y + dy, m.direction)
    requires r == Reflect(num, t, dx, dy, radius, width, height)
    ensures r == Advance(num, m, xOff, yOff, delta, radius, width, height)
  {
  }

  /** The random draws generateRandomDot makes (Math.random(), each in [0, 1)), in the order it makes them. */
  datatype Spawn = Spawn(x: real, y: real, radius: real, red: real, green: real, blue: real,
                         speed: real, direction: real)

  /** `Math.floor(r * n)`, the whole part of a scaled draw. */
  function Scaled(r: real, n: real): int {
    (r * n).Floor
  }

  /** The fill style generateRandomDot builds from the three colour draws (dots.js:543-546). */
  function FillStyle(s: Spawn): Colour {
    Rgba(Scaled(s.red, 200.0) + 50, Scaled(s.green, 200.0) + 50, Scaled(s.blue, 200.0) + 50)
  }

  /** The dots are numbered 1, 2, ... in list order, as `start` numbers them. */
  predicate Numbered(ds: seq<Dot>) {
    forall j :: 0 <= j < |ds| ==> ds[j].id == j + 1
  }

  /** Every dot is valid and lists only cells of the table. */
  predicate AllFit(num: Numerics, t: Table, ds: seq<Dot>) {
    forall j :: 0 <= j < |ds| ==> ds[j].Valid(num) && KeysIn(ds[j].sectors, t)
  }

  /** Every id in a cell is the id of a dot that lists that cell among its own. */
  predicate Backed(t: Table, ds: seq<Dot>) {
    forall c, k :: c in t && k in t[c] ==> 1 <= k <= |ds| && c in ds[k - 1].sectors
  }

  /** The dot is in exactly the cells it lists. */
  predicate IndexedIn(t: Table, d: Dot) {
    forall c :: c in t ==> (d.id in t[c] <==> c in d.sectors)
  }

  /** Two lists of the same dots that differ at most in positions, headings and vectors. */
  predicate SameCells(ds: seq<Dot>, es: seq<Dot>) {
    |ds| == |es| && forall j :: 0 <= j < |ds| ==> es[j].id == ds[j].id && es[j].sectors == ds[j].sectors
  }

  /** Moving or turning dots, without touching their cells, keeps the list numbered and the table backed. */
  lemma SameCellsKeep(t: Table, ds: seq<Dot>, es: seq<Dot>)
    requires SameCells(ds, es)
    ensures Numbered(ds) ==> Numbered(es)
    ensures Backed(t, ds) ==> Backed(t, es)
    ensures forall j :: 0 <= j < |ds| && IndexedIn(t, ds[j]) ==> IndexedIn(t, es[j])
  {
  }

  /** Dot `j` of `es` is dot `j` of `ds` with at most its position, heading, vector and cells changed. */
  predicate Reshaped(ds: seq<Dot>, es: seq<Dot>, j: int) {
    0 <= j < |ds| == |es| &&
    es[j] == ds[j].(x := es[j].x, y := es[j].y, direction := es[j].direction, vector := es[j].vector, sectors := es[j].sectors)
  }

  /**
   * Moving dot `i`, which changes its position, heading, vector and cells
   * and at most the heading and vector of the others, keeps every dot
   * Reshaped from `start`.
   */
  lemma {:induction false} ReshapedAfterMove(start: seq<Dot>, ds: seq<Dot>, es: seq<Dot>, i: int)
    requires |start| == |ds| == |es| && 0 <= i < |es|
    requires forall j :: 0 <= j < |ds| ==> Reshaped(start, ds, j)
    requires es[i] == ds[i].(x := es[i].x, y := es[i].y, direction := es[i].direction, vector := es[i].vector, sectors := es[i].sectors)
    requires forall j :: 0 <= j < |es| && j != i ==> es[j] == ds[j].(direction := es[j].direction, vector := es[j].vector)
    ensures forall j :: 0 <= j < |es| ==> Reshaped(start, es, j)
  {
    forall j | 0 <= j < |es|
      ensures Reshaped(start, es, j)
    {
      assert Reshaped(start, ds, j);
    }
  }

  /** Dot `j` lists its own cell whenever the table has it: a dot always registers in the cell of its centre (dots.js:146-160). */
  predicate ListsOwnCell(t: Table, ds: seq<Dot>, j: int, size: real)
    requires size != 0.0
  {
    0 <= j < |ds| && (ds[j].OwnCell(size) in t ==> ds[j].OwnCell(size) in ds[j].sectors)
  }

  /** Every dot from `from` onward lists its own cell whenever the table has it. */
  predicate OwnCellsListed(t: Table, ds: seq<Dot>, from: int, size: real)
    requires size != 0.0
  {
    forall j :: from <= j < |ds| ==> ListsOwnCell(t, ds, j, size)
  }

  /** Dot `j` lists exactly the cells of the table at and ahead of where it now is. */
  predicate RegisteredAt(num: Numerics, t: Table, ds: seq<Dot>, j: int, size: real)
    requires size != 0.0
  {
    0 <= j < |ds| && ds[j].sectors == Memberships(t, ds[j].OwnCell(size), ds[j].AheadCell(num, size))
  }

  /** Every dot from `from` onward lists exactly the cells of the table at and ahead of where it now is. */
  predicate RegisteredFrom(num: Numerics, t: Table, ds: seq<Dot>, from: int, size: real)
    requires size != 0.0
  {
    forall j :: from <= j < |ds| ==> RegisteredAt(num, t, ds, j, size)
  }

  /**
   * Re-registering dot `i` where it now is, while every other dot keeps its
   * position and cells and the table keeps its cells, extends
   * OwnCellsListed from the dots after `i` to `i` itself.
   */
  lemma {:induction false} ListedAfterMove(num: Numerics, t: Table, t2: Table, grid: Cell, ds: seq<Dot>, es: seq<Dot>, i: int, size: real)
    requires size != 0.0 && (forall c :: c in t <==> InGrid(c, grid)) && (forall c :: c in t2 <==> InGrid(c, grid))
    requires |ds| == |es| && 0 <= i < |ds|
    requires forall j :: 0 <= j < |es| && j != i ==> es[j] == ds[j].(direction := es[j].direction, vector := es[j].vector)
    requires es[i].sectors == Memberships(t, es[i].OwnCell(size), es[i].AheadCell(num, size))
    requires OwnCellsListed(t, ds, i + 1, size)
    ensures OwnCellsListed(t2, es, i, size)
  {
    forall j | i <= j < |es|
      ensures ListsOwnCell(t2, es, j, size)
    {
      if j != i {
        assert ListsOwnCell(t, ds, j, size);
        assert ds[j].OwnCell(size) == es[j].OwnCell(size);
      }
    }
  }

  /**
   * Re-registering dot `i` where it now is, while every other dot stays as it
   * was and the table keeps its cells, extends RegisteredFrom from the dots
   * after `i` to `i` itself.
   */
  lemma {:induction false} RegisteredAfterMove(num: Numerics, t: Table, t2: Table, grid: Cell, ds: seq<Dot>, es: seq<Dot>, i: int, size: real)
    requires size != 0.0 && (forall c :: c in t <==> InGrid(c, grid)) && (forall c :: c in t2 <==> InGrid(c, grid))
    requires |ds| == |es| && 0 <= i < |ds|
    requires forall j :: 0 <= j < |es| && j != i ==> es[j] == ds[j]
    requires es[i].sectors == Memberships(t, es[i].OwnCell(size), es[i].AheadCell(num, size))
    requires RegisteredFrom(num, t, ds, i + 1, size)
    ensures RegisteredFrom(num, t2, es, i, size)
  {
    assert t.Keys == t2.Keys by {
      assert forall c :: c in t <==> c in t2;
    }
    forall j | i <= j < |es|
      ensures RegisteredAt(num, t2, es, j, size)
    {
      if j != i {
        assert RegisteredAt(num, t, ds, j, size);
      }
      MembershipsKeys(t, t2, es[j].OwnCell(size), es[j].AheadCell(num, size));
    }
  }

  /** A dot registered where it is lists its own cell whenever the table has it. */
  lemma {:induction false} RegisteredListsOwn(num: Numerics, t: Table, ds: seq<Dot>, from: int, size: real)
    requires size != 0.0 && RegisteredFrom(num, t, ds, from, size)
    ensures OwnCellsListed(t, ds, from, size)
  {
    forall j | from <= j < |ds|
      ensures ListsOwnCell(t, ds, j, size)
    {
      assert RegisteredAt(num, t, ds, j, size);
    }
  }

  /** A table with the same cells and none of them holding an id keeps every valid dot fitting and backs them all. */
  lemma FreshTable(num: Numerics, t: Table, empty: Table, ds: seq<Dot>)
    requires AllFit(num, t, ds) && empty.Keys == t.Keys && forall c :: c in empty ==> empty[c] == {}
    ensures AllFit(num, empty, ds) && Backed(empty, ds)
  {
  }

  /** Dot `j` is another dot within dot `i`'s safe range (dots.js:115-118). */
  predicate Close(num: Numerics, ds: seq<Dot>, i: int, j: int)
    requires 0 <= i < |ds| && 0 <= j < |ds|
  {
    j != i && CalculateDistance(num, ds[i].x, ds[i].y, ds[j].x, ds[j].y) <= ds[i].safeRange
  }

  /** The avoidance angle dot `i` and its neighbour `j` both turn by (dots.js:119). */
  function Swerve(num: Numerics, ds: seq<Dot>, i: int, j: int): real
    requires 0 <= i < |ds| && 0 <= j < |ds|
  {
    AvoidanceAngle(num, ds[i].x, ds[i].y, ds[i].radius, ds[j].x, ds[j].y)
  }

  /** How many of the cells listed in `keys` hold `id`. */
  function Visits(t: Table, keys: seq<Cell>, id: int): nat
    decreases |keys|
  {
    if keys == [] then 0
    else
      var last := keys[|keys| - 1];
      Visits(t, keys[..|keys| - 1], id) + if last in t && id in t[last] then 1 else 0
  }

  /**
   * How often the avoidance pass of dot `i` has met dot `j` as a close
   * neighbour, once it has gone through the cells `keys` and the ids `seen`
   * of the next one.
   */
  function Meetings(num: Numerics, t: Table, ds: seq<Dot>, i: int, keys: seq<Cell>, seen: set<int>, j: int): nat
    requires 0 <= i < |ds| && 0 <= j < |ds|
  {
    if Close(num, ds, i, j) then Visits(t, keys, j + 1) + (if j + 1 in seen then 1 else 0) else 0
  }

  /** The Meetings of the first `n` dots. */
  function Tally(num: Numerics, t: Table, ds: seq<Dot>, i: int, keys: seq<Cell>, seen: set<int>, n: nat): (met: seq<nat>)
    requires 0 <= i < |ds| && n <= |ds|
    ensures |met| == n && forall j {:trigger met[j]} :: 0 <= j < n ==> met[j] == Meetings(num, t, ds, i, keys, seen, j)
  {
    if n == 0 then [] else Tally(num, t, ds, i, keys, seen, n - 1) + [Meetings(num, t, ds, i, keys, seen, n - 1)]
  }

  /**
   * How often the whole pass of dot `i` meets each dot `j`: the number of
   * dot `i`'s cells that hold `j`'s id when `j` is close, and none otherwise.
   */
  function Hits(num: Numerics, t: Table, ds: seq<Dot>, i: int): (met: seq<nat>)
    requires 0 <= i < |ds|
    ensures |met| == |ds|
  {
    Tally(num, t, ds, i, ds[i].sectors, {}, |ds|)
  }

  /** A cell list visits `id` not at all exactly when none of its cells of the table holds `id`. */
  lemma {:induction false} VisitsNone(t: Table, keys: seq<Cell>, id: int)
    ensures Visits(t, keys, id) == 0 <==> forall k :: 0 <= k < |keys| && keys[k] in t ==> id !in t[keys[k]]
    decreases |keys|
  {
    if keys != [] {
      var init := keys[..|keys| - 1];
      VisitsNone(t, init, id);
      assert forall k :: 0 <= k < |init| ==> init[k] == keys[k];
    }
  }

  /**
   * The pass of dot `i` leaves dot `j` alone exactly when `j` is not within
   * the safe range or none of dot `i`'s cells holds `j`'s id.
   */
  lemma HitsNone(num: Numerics, t: Table, ds: seq<Dot>, i: int, j: int)
    requires 0 <= i < |ds| && 0 <= j < |ds|
    ensures Hits(num, t, ds, i)[j] == 0 <==>
      !Close(num, ds, i, j) || forall k :: 0 <= k < |ds[i].sectors| && ds[i].sectors[k] in t ==> j + 1 !in t[ds[i].sectors[k]]
  {
    VisitsNone(t, ds[i].sectors, j + 1);
  }

  /** The avoidance angle of each of the first `n` dots with respect to dot `i`. */
  function Angles(num: Numerics, ds: seq<Dot>, i: int, n: nat): (angles: seq<real>)
    requires 0 <= i < |ds| && n <= |ds|
    ensures |angles| == n && forall j {:trigger angles[j]} :: 0 <= j < n ==> angles[j] == Swerve(num, ds, i, j)
  {
    if n == 0 then [] else Angles(num, ds, i, n - 1) + [Swerve(num, ds, i, n - 1)]
  }

  /** `n` turns by `a` one after the other. */
  function Times(n: nat, a: real): real {
    if n == 0 then 0.0 else Times(n - 1, a) + a
  }

  /** The turns of the first `n` meetings added up: `met[j]` turns by `angles[j]` for each `j`. */
  function Weighted(met: seq<nat>, angles: seq<real>, n: nat): real
    requires n <= |met| && n <= |angles|
  {
    if n == 0 then 0.0 else Weighted(met, angles, n - 1) + Times(met[n - 1], angles[n - 1])
  }

  /** The heading of every dot. */
  function Headings(ds: seq<Dot>): (h: seq<real>)
    ensures |h| == |ds| && forall j {:trigger h[j]} :: 0 <= j < |ds| ==> h[j] == ds[j].direction
  {
    if ds == [] then [] else Headings(ds[..|ds| - 1]) + [ds[|ds| - 1].direction]
  }

  /**
   * Headings `h` are `h0` after the meetings `met`: every other dot `j` has
   * turned `met[j]` times by `angles[j]`, and dot `i` by all of those turns
   * together, up to whole turns `m`.
   */
  ghost predicate Turned(h0: seq<real>, h: seq<real>, i: int, met: seq<nat>, angles: seq<real>, m: real) {
    && |h0| == |h| == |met| == |angles| && 0 <= i < |h|
    && (forall j :: 0 <= j < |h| && j != i ==> Congruent(h[j], h0[j] + Times(met[j], angles[j]), m))
    && Congruent(h[i], h0[i] + Weighted(met, angles, |h|), m)
  }

  /**
   * `ds` is what the avoidance pass of dot `i` makes of `start` after the
   * meetings `met`: no dot has moved or changed anything but its heading and
   * vector, a dot never met is untouched, and the headings have Turned by
   * the avoidance angles.
   */
  ghost predicate Swerved(num: Numerics, start: seq<Dot>, ds: seq<Dot>, i: int, met: seq<nat>) {
    && |start| == |ds| == |met| && 0 <= i < |ds|
    && (forall j :: 0 <= j < |ds| ==> ds[j] == start[j].(direction := ds[j].direction, vector := ds[j].vector))
    && (forall j :: 0 <= j < |ds| && j != i && met[j] == 0 ==> ds[j] == start[j])
    && Turned(Headings(start), Headings(ds), i, met, Angles(num, start, i, |start|), num.TwoPi())
  }

  /**
   * What Swerved promises for another dot `j`: it has turned by its avoidance
   * angle once per meeting, up to whole turns (and Swerved itself says it is
   * untouched if never met).
   */
  lemma SwervedOther(num: Numerics, start: seq<Dot>, ds: seq<Dot>, i: int, met: seq<nat>, j: int)
    requires Swerved(num, start, ds, i, met) && 0 <= j < |ds| && j != i
    ensures Congruent(ds[j].direction, start[j].direction + Times(met[j], Angles(num, start, i, |start|)[j]), num.TwoPi())
  {
    var h0, h, angles, m := Headings(start), Headings(ds), Angles(num, start, i, |start|), num.TwoPi();
    assert h0[j] == start[j].direction && h[j] == ds[j].direction;
    var k :| h[j] - (h0[j] + Times(met[j], angles[j])) == Turns(k, m);
    assert ds[j].direction - (start[j].direction + Times(met[j], angles[j])) == Turns(k, m);
  }

  /** What Swerved promises for dot `i`: it has turned by all the other dots' turns together, up to whole turns. */
  lemma SwervedSelf(num: Numerics, start: seq<Dot>, ds: seq<Dot>, i: int, met: seq<nat>)
    requires Swerved(num, start, ds, i, met)
    ensures Congruent(ds[i].direction, start[i].direction + Weighted(met, Angles(num, start, i, |start|), |ds|), num.TwoPi())
  {
    var h0, h, angles, m := Headings(start), Headings(ds), Angles(num, start, i, |start|), num.TwoPi();
    assert h0[i] == start[i].direction && h[i] == ds[i].direction;
    var k :| h[i] - (h0[i] + Weighted(met, angles, |h|)) == Turns(k, m);
    assert ds[i].direction - (start[i].direction + Weighted(met, angles, |ds|)) == Turns(k, m);
  }

  /**
   * Dot `i`, going from `before` to `after` and left heading `turned` by its
   * neighbours, has swerved by the angles `angles` as often as `met` says:
   * its own heading by all of them together, each other dot's by its own
   * angle once per meeting (all up to whole turns), and a dot never met is
   * as it was.
   */
  ghost predicate TurnedAside(num: Numerics, before: seq<Dot>, after: seq<Dot>, i: int, turned: real,
                              met: seq<nat>, angles: seq<real>) {
    && |before| == |after| == |met| == |angles| && 0 <= i < |before|
    && Congruent(turned, before[i].direction + Weighted(met, angles, |before|), num.TwoPi())
    && (forall j :: 0 <= j < |after| && j != i ==>
          Congruent(after[j].direction, before[j].direction + Times(met[j], angles[j]), num.TwoPi()))
    && (forall j :: 0 <= j < |after| && j != i && met[j] == 0 ==> after[j] == before[j])
  }

  /**
   * Dot `i`, stepped to `moved` and registered in `t`, turned aside from
   * `before` to `after` (its own heading to `turned`) by the meetings and
   * angles that `t` and `moved` give.
   */
  ghost predicate Avoided(num: Numerics, t: Table, moved: seq<Dot>, before: seq<Dot>, after: seq<Dot>, i: int, turned: real) {
    && 0 <= i < |moved|
    && forall met, angles | met == Hits(num, t, moved, i) && angles == Angles(num, moved, i, |moved|) ::
         TurnedAside(num, before, after, i, turned, met, angles)
  }

  /** Re-placing dot `i` afterwards keeps the dots Avoided. */
  lemma AvoidedKeeps(num: Numerics, t: Table, moved: seq<Dot>, before: seq<Dot>, after: seq<Dot>, ds: seq<Dot>,
                     i: int, turned: real)
    requires Avoided(num, t, moved, before, after, i, turned)
    requires 0 <= i < |ds| == |after| && ds == after[i := ds[i]]
    ensures Avoided(num, t, moved, before, ds, i, turned)
  {
    forall met, angles | met == Hits(num, t, moved, i) && angles == Angles(num, moved, i, |moved|)
      ensures TurnedAside(num, before, ds, i, turned, met, angles)
    {
      TurnedAsideKeeps(num, before, after, ds, i, turned, met, angles);
    }
  }

  /**
   * Swerved read back after the move is finished: `before` is where the dots
   * were, `moved` the same with dot `i` stepped (its heading kept), and `ds`
   * is `stepped` with dot `i` replaced once more. Then the dots turned aside
   * from `before` to `ds` by the avoidance angles in `moved`, dot `i` to the
   * heading it had in `stepped`.
   */
  lemma SwervedSettled(num: Numerics, before: seq<Dot>, moved: seq<Dot>, stepped: seq<Dot>, ds: seq<Dot>, i: int, met: seq<nat>)
    requires Swerved(num, moved, stepped, i, met)
    requires |before| == |moved| && moved == before[i := moved[i]] && moved[i].direction == before[i].direction
    requires |ds| == |stepped| && ds == stepped[i := ds[i]]
    ensures TurnedAside(num, before, ds, i, stepped[i].direction, met, Angles(num, moved, i, |moved|))
  {
    SwervedSelf(num, moved, stepped, i, met);
    forall j | 0 <= j < |ds| && j != i
      ensures Congruent(ds[j].direction, before[j].direction + Times(met[j], Angles(num, moved, i, |moved|)[j]), num.TwoPi())
    {
      SwervedOther(num, moved, stepped, i, met, j);
    }
  }

  /** Whatever happens to dot `i` afterwards does not change how the others turned aside. */
  lemma TurnedAsideKeeps(num: Numerics, before: seq<Dot>, after: seq<Dot>, ds: seq<Dot>, i: int, turned: real,
                         met: seq<nat>, angles: seq<real>)
    requires TurnedAside(num, before, after, i, turned, met, angles)
    requires |ds| == |after| && ds == after[i := ds[i]]
    ensures TurnedAside(num, before, ds, i, turned, met, angles)
  {
  }

  /** Meeting neighbour `p` once more adds its angle to the total. */
  lemma {:induction false} WeightedBump(met: seq<nat>, angles: seq<real>, p: int, n: nat)
    requires n <= |met| == |angles| && 0 <= p < |met|
    ensures Weighted(met[p := met[p] + 1], angles, n) == Weighted(met, angles, n) + if p < n then angles[p] else 0.0
    decreases n
  {
    if n > 0 {
      var met2 := met[p := met[p] + 1];
      WeightedBump(met, angles, p, n - 1);
      if p != n - 1 {
        assert met2[n - 1] == met[n - 1];
      }
    }
  }

  /** With no meetings there is no turn. */
  lemma {:induction false} WeightedNone(met: seq<nat>, angles: seq<real>, n: nat)
    requires n <= |met| == |angles| && forall j :: 0 <= j < |met| ==> met[j] == 0
    ensures Weighted(met, angles, n) == 0.0
    decreases n
  {
    if n > 0 {
      WeightedNone(met, angles, n - 1);
    }
  }

  /** Before the pass has met anyone, nothing has turned. */
  lemma SwervedStart(num: Numerics, t: Table, ds: seq<Dot>, i: int)
    requires 0 <= i < |ds|
    ensures Swerved(num, ds, ds, i, Tally(num, t, ds, i, [], {}, |ds|))
  {
    var met := Tally(num, t, ds, i, [], {}, |ds|);
    assert forall j :: 0 <= j < |met| ==> met[j] == 0;
    TurnedNone(Headings(ds), i, met, Angles(num, ds, i, |ds|), num.TwoPi());
  }

  /** Headings that no meeting has turned. */
  lemma TurnedNone(h: seq<real>, i: int, met: seq<nat>, angles: seq<real>, m: real)
    requires 0 <= i < |h| == |met| == |angles| && forall j :: 0 <= j < |met| ==> met[j] == 0
    ensures Turned(h, h, i, met, angles, m)
  {
    WeightedNone(met, angles, |h|);
    forall j | 0 <= j < |h|
      ensures Congruent(h[j], h[j] + Times(met[j], angles[j]), m)
    {
      assert h[j] - (h[j] + Times(met[j], angles[j])) == Turns(0, m);
    }
  }

  /**
   * Dot `i` and neighbour `p` both turning by `p`'s angle, and no other
   * heading changing, is one more meeting with `p`.
   */
  lemma TurnedStep(h0: seq<real>, h: seq<real>, h2: seq<real>, i: int, p: int, met: seq<nat>, angles: seq<real>, m: real)
    requires Turned(h0, h, i, met, angles, m) && 0 <= p < |h| && p != i && |h2| == |h|
    requires forall j :: 0 <= j < |h| && j != i && j != p ==> h2[j] == h[j]
    requires Congruent(h2[i], h[i] + angles[p], m) && Congruent(h2[p], h[p] + angles[p], m)
    ensures Turned(h0, h2, i, met[p := met[p] + 1], angles, m)
  {
    var a := angles[p];
    var met2 := met[p := met[p] + 1];
    var x := Times(met[p], a);
    CongruentAffine(h[p], h0[p] + x, m, false, a);
    CongruentTrans(h2[p], h[p] + a, h0[p] + x + a, m);
    assert h0[p] + x + a == h0[p] + Times(met2[p], angles[p]);
    var w := Weighted(met, angles, |h|);
    WeightedBump(met, angles, p, |h|);
    CongruentAffine(h[i], h0[i] + w, m, false, a);
    CongruentTrans(h2[i], h[i] + a, h0[i] + w + a, m);
    assert h0[i] + w + a == h0[i] + Weighted(met2, angles, |h2|);
    forall j | 0 <= j < |h| && j != i && j != p
      ensures Congruent(h2[j], h0[j] + Times(met2[j], angles[j]), m)
    {
      var b := h0[j] + Times(met[j], angles[j]);
      assert met2[j] == met[j];
      assert Congruent(h[j], b, m);
      var k :| h[j] - b == Turns(k, m);
      assert h2[j] - b == Turns(k, m);
    }
  }

  /**
   * Both dots of one meeting (dot `i` and neighbour `p`) turning by `p`'s
   * angle, and nothing else changing, is one more meeting with `p`.
   */
  lemma SwervedStep(num: Numerics, start: seq<Dot>, ds: seq<Dot>, ds2: seq<Dot>, i: int, p: int, met: seq<nat>)
    requires Swerved(num, start, ds, i, met) && 0 <= p < |ds| && p != i
    requires |ds2| == |ds|
    requires forall j :: 0 <= j < |ds| ==> ds2[j] == ds[j].(direction := ds2[j].direction, vector := ds2[j].vector)
    requires forall j :: 0 <= j < |ds| && j != i && j != p ==> ds2[j] == ds[j]
    requires Congruent(ds2[i].direction, ds[i].direction + Swerve(num, start, i, p), num.TwoPi())
    requires Congruent(ds2[p].direction, ds[p].direction + Swerve(num, start, i, p), num.TwoPi())
    ensures Swerved(num, start, ds2, i, met[p := met[p] + 1])
  {
    TurnedStep(Headings(start), Headings(ds), Headings(ds2), i, p, met, Angles(num, start, i, |start|), num.TwoPi());
  }

  /**
   * While no dot has moved, the neighbour test and the avoidance angle read
   * off the current dots are those of the dots the pass started from.
   */
  lemma SwervedClose(num: Numerics, start: seq<Dot>, ds: seq<Dot>, i: int, p: int, met: seq<nat>)
    requires Swerved(num, start, ds, i, met) && 0 <= p < |ds|
    ensures Close(num, start, i, p) == Close(num, ds, i, p)
    ensures Swerve(num, start, i, p) == AvoidanceAngle(num, ds[i].x, ds[i].y, ds[i].radius, ds[p].x, ds[p].y)
  {
    assert ds[i] == start[i].(direction := ds[i].direction, vector := ds[i].vector);
    assert ds[p] == start[p].(direction := ds[p].direction, vector := ds[p].vector);
  }

  /**
   * One neighbour `p` too close to dot `i` (dots.js:119-123): dot `i` steps
   * back by `step`, turns by the avoidance angle, and steps forward again;
   * dot `p` turns by the same angle.
   */
  function AvoidedOne(num: Numerics, ds: seq<Dot>, i: int, p: int, step: Vector): (es: seq<Dot>)
    requires num.Valid() && 0 <= i < |ds| && 0 <= p < |ds| && p != i
    ensures |es| == |ds|
  {
    var angle := AvoidanceAngle(num, ds[i].x, ds[i].y, ds[i].radius, ds[p].x, ds[p].y);
    var back := ds[i].Offset(-step.xOff, -step.yOff);
    ds[i := back.Rotate(num, angle).Offset(step.xOff, step.yOff)][p := ds[p].Rotate(num, angle)]
  }

  /**
   * Avoiding neighbour `p` turns dot `i` and dot `p` by the avoidance angle,
   * up to whole turns, and changes nothing else: no dot moves and no other
   * dot changes at all.
   */
  lemma AvoidedOneTurns(num: Numerics, ds: seq<Dot>, i: int, p: int, step: Vector)
    requires num.Valid() && 0 <= i < |ds| && 0 <= p < |ds| && p != i
    ensures var es := AvoidedOne(num, ds, i, p, step);
      && (forall j :: 0 <= j < |ds| ==> es[j] == ds[j].(direction := es[j].direction, vector := es[j].vector))
      && (forall j :: 0 <= j < |ds| && j != i && j != p ==> es[j] == ds[j])
    ensures var es := AvoidedOne(num, ds, i, p, step);
      var angle := AvoidanceAngle(num, ds[i].x, ds[i].y, ds[i].radius, ds[p].x, ds[p].y);
      && Congruent(es[i].direction, ds[i].direction + angle, num.TwoPi())
      && Congruent(es[p].direction, ds[p].direction + angle, num.TwoPi())
  {
    var es := AvoidedOne(num, ds, i, p, step);
    var angle := AvoidanceAngle(num, ds[i].x, ds[i].y, ds[i].radius, ds[p].x, ds[p].y);
    var turned := ds[i].Offset(-step.xOff, -step.yOff).Rotate(num, angle);
    assert es[i] == turned.Offset(step.xOff, step.yOff) && es[p] == ds[p].Rotate(num, angle);
    assert es[i] == ds[i].(direction := es[i].direction, vector := es[i].vector);
  }

  /** Avoiding a neighbour moves no dot off its cells and keeps every dot valid. */
  lemma AvoidedOneKeeps(num: Numerics, t: Table, ds: seq<Dot>, i: int, p: int, step: Vector)
    requires num.Valid() && 0 <= i < |ds| && 0 <= p < |ds| && p != i
    ensures SameCells(ds, AvoidedOne(num, ds, i, p, step))
    ensures AllFit(num, t, ds) ==> AllFit(num, t, AvoidedOne(num, ds, i, p, step))
  {
  }

  /**
   * One id `d` of dot `i`'s cells keeps the pass Swerved: since no dot has
   * moved, the test read off the current dots is Close on the dots the pass
   * started from, and when it holds, avoiding the neighbour is meeting it
   * once more.
   */
  lemma SwervedMeet(num: Numerics, start: seq<Dot>, ds: seq<Dot>, i: int, d: int, step: Vector, met: seq<nat>)
    returns (es: seq<Dot>, met2: seq<nat>)
    requires num.Valid() && Swerved(num, start, ds, i, met) && 1 <= d <= |ds|
    ensures Close(num, start, i, d - 1) == Close(num, ds, i, d - 1)
    ensures Close(num, start, i, d - 1) ==> es == AvoidedOne(num, ds, i, d - 1, step) && met2 == met[d - 1 := met[d - 1] + 1]
    ensures !Close(num, start, i, d - 1) ==> es == ds && met2 == met
    ensures Swerved(num, start, es, i, met2)
  {
    SwervedClose(num, start, ds, i, d - 1, met);
    if Close(num, start, i, d - 1) {
      es, met2 := SwervedAvoided(num, start, ds, i, d - 1, step, met);
    } else {
      es, met2 := ds, met;
    }
  }

  /** Avoiding a close neighbour `p` during the pass is meeting it once more. */
  lemma SwervedAvoided(num: Numerics, start: seq<Dot>, ds: seq<Dot>, i: int, p: int, step: Vector, met: seq<nat>)
    returns (es: seq<Dot>, met2: seq<nat>)
    requires num.Valid() && Swerved(num, start, ds, i, met) && 0 <= p < |ds| && Close(num, start, i, p)
    ensures es == AvoidedOne(num, ds, i, p, step) && met2 == met[p := met[p] + 1]
    ensures Swerved(num, start, es, i, met2)
  {
    SwervedClose(num, start, ds, i, p, met);
    AvoidedOneTurns(num, ds, i, p, step);
    es, met2 := AvoidedOne(num, ds, i, p, step), met[p := met[p] + 1];
    SwervedStep(num, start, ds, es, i, p, met);
  }

  /** Meeting one more id `d` of the current cell: a close dot is met once more, any other id changes nothing. */
  lemma TallyVisit(num: Numerics, t: Table, ds: seq<Dot>, i: int, keys: seq<Cell>, members: set<int>, rest: set<int>, d: int,
                   met: seq<nat>)
    requires 0 <= i < |ds| && 1 <= d <= |ds| && d in rest && rest <= members
    requires met == Tally(num, t, ds, i, keys, members - rest, |ds|)
    ensures Close(num, ds, i, d - 1) ==> met[d - 1 := met[d - 1] + 1] == Tally(num, t, ds, i, keys, members - (rest - {d}), |ds|)
    ensures !Close(num, ds, i, d - 1) ==> met == Tally(num, t, ds, i, keys, members - (rest - {d}), |ds|)
  {
    assert members - (rest - {d}) == (members - rest) + {d};
  }

  /** Having met every id of the next cell is having gone through one more cell. */
  lemma TallyNext(num: Numerics, t: Table, ds: seq<Dot>, i: int, keys: seq<Cell>, k: int)
    requires 0 <= i < |ds| && 0 <= k < |keys| && keys[k] in t
    ensures Tally(num, t, ds, i, keys[..k], t[keys[k]], |ds|) == Tally(num, t, ds, i, keys[..k + 1], {}, |ds|)
  {
    assert keys[..k + 1][..k] == keys[..k];
  }

  /**
   * `t` is `t0` with every dot of `ds` added to the cells it lists: a cell
   * holds an id when it held it before or the id's dot lists the cell.
   */
  ghost predicate Enrolled(t0: Table, t: Table, ds: seq<Dot>) {
    && t.Keys == t0.Keys
    && forall c, k :: c in t ==> (k in t[c] <==> k in t0[c] || (1 <= k <= |ds| && c in ds[k - 1].sectors))
  }

  /** Inserting the next dot of the list under its own cells keeps the table enrolled. */
  lemma EnrolledOneMore(t0: Table, t: Table, ds: seq<Dot>, d: Dot, t2: Table)
    requires Enrolled(t0, t, ds) && KeysIn(d.sectors, t) && d.id == |ds| + 1
    requires t2 == Insert(t, d.id, d.sectors)
    ensures Enrolled(t0, t2, ds + [d])
  {
    var ds2 := ds + [d];
    forall c, k | c in t2
      ensures k in t2[c] <==> k in t0[c] || (1 <= k <= |ds2| && c in ds2[k - 1].sectors)
    {
      if 1 <= k <= |ds| {
        assert ds2[k - 1] == ds[k - 1];
      }
    }
  }

  /** A valid dot fitting a table with the same cells can join a list that fits it. */
  lemma FitsOneMore(num: Numerics, t: Table, t2: Table, ds: seq<Dot>, d: Dot)
    requires AllFit(num, t, ds) && t2.Keys == t.Keys && d.Valid(num) && KeysIn(d.sectors, t2)
    ensures AllFit(num, t2, ds + [d])
  {
  }

  /**
   * Re-registering valid dot `i` (purge its old cells, insert it into its new
   * ones) keeps the list numbered, valid and within the table, and the
   * table backed; it puts the dot in exactly the cells it lists, and leaves
   * every other id, and every other dot's exactness, as it was.
   */
  lemma {:induction false} RegisterKeeps(num: Numerics, t: Table, ds: seq<Dot>, i: int, r: Dot, t2: Table)
    requires 0 <= i < |ds| && Numbered(ds) && AllFit(num, t, ds) && Backed(t, ds)
    requires r.Valid(num) && KeysIn(r.sectors, t) && r.id == ds[i].id
    requires t2 == Insert(Purge(t, r.id, ds[i].sectors), r.id, r.sectors)
    ensures t2.Keys == t.Keys
    ensures Numbered(ds[i := r]) && AllFit(num, t2, ds[i := r]) && Backed(t2, ds[i := r]) && IndexedIn(t2, r)
    ensures forall c, k :: c in t2 && k != r.id ==> (k in t2[c] <==> k in t[c])
    ensures forall j :: 0 <= j < |ds| && j != i && IndexedIn(t, ds[j]) ==> IndexedIn(t2, ds[j])
  {
    forall c | c in t && r.id in t[c]
      ensures c in ds[i].sectors
    {
    }
    RegisterExact(t, r.id, ds[i].sectors, r.sectors);
  }

  /**
   * The insertion loop of registerDotSectors (dots.js:433-448) on the purged
   * table: the dot's own cell, then four lookaheads which all land on the cell
   * one step ahead. The dot goes into exactly the cells Memberships lists.
   */
  method Enroll(num: Numerics, size: real, purged: Table, dot: Dot) returns (t: Table, ms: seq<Cell>)
    requires size != 0.0
    ensures ms == Memberships(purged, dot.OwnCell(size), dot.AheadCell(num, size))
    ensures KeysIn(ms, purged) && t == Insert(purged, dot.id, ms)
  {
    t := purged;
    ms := [];
    var own := GetSector(dot.x, dot.y, size);
    ghost var ahead := dot.AheadCell(num, size);
    if own in t {
      InsertOneMore(purged, dot.id, [], own);
      t := t[own := t[own] + {dot.id}];
      ms := [own];
    }
    ghost var first := ms;
    var v := 3;
    while v >= 0
      invariant -1 <= v <= 3
      invariant first == (if own in purged then [own] else [])
      invariant ms == if v < 3 && ahead in purged && ahead != own then first + [ahead] else first
      invariant KeysIn(ms, purged) && t == Insert(purged, dot.id, ms)
    {
      var dotVector := CalculateVector(num, dot.x, dot.y, dot.speed, dot.direction, UndefinedPlus(90.0 * v as real));
      LookaheadIgnoresTurn(num, dot.x, dot.y, dot.speed, dot.direction, v);
      var s := GetSector(dotVector.x, dotVector.y, size);
      if s in t {
        InsertOneMore(purged, dot.id, ms, s);
        t := t[s := t[s] + {dot.id}];
        if s !in ms {
          ms := ms + [s];
        }
      }
      v := v - 1;
    }
  }

  /** The three per-dot switches the engine broadcasts. */
  datatype Flag = VectorFlag | InfoFlag | AvoidFlag

  /** The dot with one switch set, and nothing else changed. */
  function Switch(d: Dot, f: Flag, on: bool): (r: Dot)
    ensures f == VectorFlag ==> r == d.(showVector := on)
    ensures f == InfoFlag ==> r == d.(showInfo := on)
    ensures f == AvoidFlag ==> r == d.(avoidEachOther := on)
  {
    match f
    case VectorFlag => d.(showVector := on)
    case InfoFlag => d.(showInfo := on)
    case AvoidFlag => d.(avoidEachOther := on)
  }

  /** `v` limited to [lo, hi], the lower bound checked first, as isOutOfBounds checks it. */
  function Clamp(v: real, lo: real, hi: real): real {
    if v < lo then lo else if hi < v then hi else v
  }

  /** True of draws that Math.random() can return: each in [0, 1). */
  predicate RandomDraws(s: Spawn) {
    && 0.0 <= s.x < 1.0 && 0.0 <= s.y < 1.0 && 0.0 <= s.radius < 1.0 && 0.0 <= s.red < 1.0
    && 0.0 <= s.green < 1.0 && 0.0 <= s.blue < 1.0 && 0.0 <= s.speed < 1.0 && 0.0 <= s.direction < 1.0
  }

  /**
   * The ranges generateRandomDot (dots.js:540-548) draws from: a radius of 3
   * to 10, colour channels of 50 to 249, a speed of 10 to 29, a heading in
   * [0, 360), and a position on the canvas.
   */
  lemma SpawnRanges(s: Spawn, width: real, height: real)
    requires RandomDraws(s) && width >= 1.0 && height >= 1.0
    ensures 3 <= Scaled(s.radius, 8.0) + 3 <= 10
    ensures var c := FillStyle(s); 50 <= c.red <= 249 && 50 <= c.green <= 249 && 50 <= c.blue <= 249
    ensures 10 <= Scaled(s.speed, 20.0) + 10 <= 29
    ensures 0.0 <= s.direction * 360.0 < 360.0
    ensures 0 <= Scaled(s.x, width) && Scaled(s.x, width) as real < width
    ensures 0 <= Scaled(s.y, height) && Scaled(s.y, height) as real < height
  {
    ScaleFloor(s.radius, 8.0);
    ScaleFloor(s.red, 200.0);
    ScaleFloor(s.green, 200.0);
    ScaleFloor(s.blue, 200.0);
    ScaleFloor(s.speed, 20.0);
    ScaleFloor(s.x, width);
    ScaleFloor(s.y, height);
  }

  /** A draw in [0, 1) scaled by a positive `w` and floored lands in [0, w). */
  lemma ScaleFloor(r: real, w: real)
    requires 0.0 <= r < 1.0 && w > 0.0
    ensures 0 <= Scaled(r, w) && Scaled(r, w) as real < w
  {
    var p := r * w;
    ScaleBetween(r, w, 0.0, 1.0);
    assert 0.0 <= p < w;
    var k := p.Floor;
    assert k as real <= p < k as real + 1.0;
    assert 0 <= k by {
      assert -1.0 < k as real;
    }
    assert k as real < w;
  }

  /**
   * The dot `new Dot(...)` makes in generateRandomDot (dots.js:540-549),
   * before it registers: the drawn position, radius, colour, speed and heading.
   */
  function Born(num: Numerics, id: int, s: Spawn, width: real, height: real): Dot {
    NewDot(num, id, Scaled(s.x, width) as real, Scaled(s.y, height) as real, (Scaled(s.radius, 8.0) + 3) as real,
           FillStyle(s), s.direction * 360.0, (Scaled(s.speed, 20.0) + 10) as real)
  }

  /** The new dot after the push back of dots.js:550-553: each coordinate clamped into the usable region. */
  function Placed(num: Numerics, id: int, s: Spawn, width: real, height: real): Dot {
    var b := Born(num, id, s, width, height);
    b.(x := Clamp(b.x, b.radius, width - b.radius), y := Clamp(b.y, b.radius, height - b.radius))
  }

  /**
   * The dot generateRandomDot returns (dots.js:539-555): registered where it
   * was born, in the cells of table `t`, then placed.
   */
  function Generated(num: Numerics, t: Table, id: int, s: Spawn, width: real, height: real, size: real): Dot
    requires size != 0.0
  {
    var born := Born(num, id, s, width, height);
    Placed(num, id, s, width, height).(sectors := Memberships(t, born.OwnCell(size), born.AheadCell(num, size)))
  }

  /**
   * A generated dot has the id it was given, the radius, colour, speed and
   * heading of its draws and the constructor's switches, it is valid, and
   * which of its cells it lists depends only on which cells the table has.
   */
  lemma GeneratedFields(num: Numerics, t: Table, t2: Table, id: int, s: Spawn, width: real, height: real, size: real)
    requires size != 0.0 && t.Keys == t2.Keys
    ensures var d := Generated(num, t, id, s, width, height, size);
      && d == Generated(num, t2, id, s, width, height, size)
      && d.id == id && FromDraws(d, s) && d.direction == s.direction * 360.0
      && d.showVector && d.showInfo && !d.avoidEachOther
      && d.Valid(num) && KeysIn(d.sectors, t)
  {
    var born := Born(num, id, s, width, height);
    MembershipsKeys(t, t2, born.OwnCell(size), born.AheadCell(num, size));
  }

  /** The fixed fields generateRandomDot (dots.js:542-547) takes from the draws. */
  predicate FromDraws(d: Dot, s: Spawn) {
    && d.radius == (Scaled(s.radius, 8.0) + 3) as real
    && d.fillStyle == FillStyle(s)
    && d.speed == (Scaled(s.speed, 20.0) + 10) as real
  }

  class Engine {
    const num: Numerics
    /** The canvas size. */
    const width: real
    const height: real
    const sectorSize: real
    var clearCanvas: bool
    var lastCycleTime: real
    var running: bool
    var dots: seq<Dot>
    var sectors: Table

    /** The cell of the canvas's far corner: the last row and column of the grid. */
    function Extent(): Cell
      requires sectorSize != 0.0
    {
      GetSector(width, height, sectorSize)
    }

    /** What holds from the constructor on: the table has exactly the cells of the grid. */
    ghost predicate Ready()
      reads this
    {
      num.Valid() && sectorSize != 0.0 && forall c :: c in sectors <==> InGrid(c, Extent())
    }

    /** The engine's invariant between frames. */
    ghost predicate Valid()
      reads this
    {
      Ready() && Numbered(dots) && AllFit(num, sectors, dots) && Backed(sectors, dots)
    }

    /**
     * The Engine constructor (dots.js:328-334) with the prototype's defaults
     * (dots.js:337-340): a falsy sector size means 100, and the table starts
     * with an empty cell for every cell of the grid.
     */
    constructor (num: Numerics, width: real, height: real, sectorSize: JsValue)
      requires num.Valid()
      ensures this.num == num && this.width == width && this.height == height
      ensures this.sectorSize == OrElse(sectorSize, 100.0)
      ensures clearCanvas && !running && lastCycleTime == 0.0 && dots == []
      ensures Valid()
      ensures forall c :: c in sectors ==> sectors[c] == {}
    {
      this.num := num;
      this.width := width;
      this.height := height;
      this.sectorSize := OrElse(sectorSize, 100.0);
      this.lastCycleTime := 0.0;
      this.running := false;
      this.dots := [];
      this.sectors := map[];
      new;
      BuildSectors();
      clearCanvas := true;
    }

    /**
     * Engine.buildSectors (dots.js:408-417): a new table with an empty cell for
     * exactly every pair from -1 up to the far corner's cell; nothing of the
     * previous table survives.
     */
    method BuildSectors()
      requires sectorSize != 0.0
      modifies this`sectors
      ensures forall c :: c in sectors <==> InGrid(c, Extent())
      ensures forall c :: c in sectors ==> sectors[c] == {}
    {
      sectors := map[];
      var extent := GetSector(width, height, sectorSize);
      var x := extent.x;
      while x >= -1
        invariant x <= extent.x
        invariant forall c :: c in sectors <==> x < c.x && InGrid(c, extent)
        invariant forall c :: c in sectors ==> sectors[c] == {}
      {
        var y := extent.y;
        while y >= -1
          invariant y <= extent.y
          invariant forall c :: c in sectors <==> (x < c.x || (c.x == x && y < c.y)) && InGrid(c, extent)
          invariant forall c :: c in sectors ==> sectors[c] == {}
        {
          sectors := sectors[Cell(x, y) := {}];
          y := y - 1;
        }
        x := x - 1;
      }
    }

    /**
     * Engine.registerDotSectors (dots.js:425-449): take the dot's id out of
     * the cells it last registered in, then put it into its own cell and the
     * cell one step ahead, skipping cells the table does not have. The
     * `dot.calculateVector()` of line 431 computes a value nobody reads and is
     * left out.
     */
    method RegisterDotSectors(dot: Dot) returns (r: Dot)
      requires Ready() && KeysIn(dot.sectors, sectors)
      modifies this`sectors
      ensures r == dot.(sectors := Memberships(old(sectors), dot.OwnCell(sectorSize), dot.AheadCell(num, sectorSize)))
      ensures sectors == Insert(Purge(old(sectors), dot.id, dot.sectors), dot.id, r.sectors)
      ensures Ready() && KeysIn(r.sectors, sectors)
    {
      var purged := PurgeKeys(sectors, dot.id, dot.sectors);
      var t, ms := Enroll(num, sectorSize, purged, dot);
      sectors := t;
      r := dot.(sectors := ms);
    }

    /**
     * The avoidance pass of Dot.move (dots.js:111-128) for dot `i`: for every
     * id registered in one of its cells, in the order the cells were listed
     * and then in ascending order, other than its own, whose dot is within
     * the safe range, step back, turn both dots by the avoidance angle, and
     * step forward again. No dot moves; each other dot turns by its angle as
     * often as dot `i`'s cells hold it if it is close (Hits), and is untouched
     * otherwise; dot `i` turns by all of those turns together.
     */
    method AvoidNeighbours(i: int, step: Vector)
      requires Valid() && 0 <= i < |dots|
      modifies this`dots
      ensures Valid() && |dots| == |old(dots)|
      ensures forall j :: 0 <= j < |dots| ==>
        dots[j] == old(dots[j]).(direction := dots[j].direction, vector := dots[j].vector)
      ensures Swerved(num, old(dots), dots, i, Hits(num, sectors, old(dots), i))
    {
      ghost var start := dots;
      var keys := dots[i].sectors;
      SwervedStart(num, sectors, start, i);
      ghost var met := Tally(num, sectors, start, i, [], {}, |start|);
      assert keys[..0] == [];
      var k := 0;
      while k < |keys|
        invariant 0 <= k <= |keys| && keys == start[i].sectors && KeysIn(keys, sectors)
        invariant Valid() && met == Tally(num, sectors, start, i, keys[..k], {}, |start|)
        invariant Swerved(num, start, dots, i, met)
      {
        met := VisitCell(i, step, keys[k], start, keys[..k], met);
        TallyNext(num, sectors, start, i, keys, k);
        k := k + 1;
      }
      assert keys[..k] == keys;
    }

    /**
     * The ids of one of dot `i`'s cells, in ascending order (dots.js:114-125):
     * each is Met in turn, so each close dot among them is met once more.
     */
    method VisitCell(i: int, step: Vector, cell: Cell, ghost start: seq<Dot>, ghost done: seq<Cell>, ghost met: seq<nat>)
      returns (ghost met2: seq<nat>)
      requires Valid() && cell in sectors
      requires Swerved(num, start, dots, i, met) && met == Tally(num, sectors, start, i, done, {}, |start|)
      modifies this`dots
      ensures Valid() && Swerved(num, start, dots, i, met2)
      ensures met2 == Tally(num, sectors, start, i, done, sectors[cell], |start|)
    {
      met2 := met;
      var members := sectors[cell];
      var rest := members;
      assert members - rest == {};
      while rest != {}
        invariant rest <= members && members == sectors[cell]
        invariant Valid() && met2 == Tally(num, sectors, start, i, done, members - rest, |start|)
        invariant Swerved(num, start, dots, i, met2)
        decreases rest
      {
        var dotId := Smallest(rest);
        TallyVisit(num, sectors, start, i, done, members, rest, dotId, met2);
        ghost var next, met3 := SwervedMeet(num, start, dots, i, dotId, step, met2);
        Meet(i, dotId, step);
        met2 := met3;
        rest := rest - {dotId};
      }
      assert members - rest == members;
    }

    /**
     * One id of one of dot `i`'s cells in the avoidance pass (dots.js:115-124):
     * if it is another dot within the safe range, the dots are AvoidedOne;
     * otherwise nothing changes.
     */
    method Meet(i: int, dotId: int, step: Vector)
      requires Valid() && 0 <= i < |dots| && 1 <= dotId <= |dots|
      modifies this`dots
      ensures Valid()
      ensures Close(num, old(dots), i, dotId - 1) ==> dots == AvoidedOne(num, old(dots), i, dotId - 1, step)
      ensures !Close(num, old(dots), i, dotId - 1) ==> dots == old(dots)
    {
      if dotId != dots[i].id {
        var other := dotId - 1;
        var me := dots[i];
        var you := dots[other];
        if CalculateDistance(num, me.x, me.y, you.x, you.y) <= me.safeRange {
          AvoidedOneKeeps(num, sectors, dots, i, other, step);
          dots := AvoidedOne(num, dots, i, other, step);
        }
      }
    }

    /**
     * The first half of Dot.move (dots.js:108-128) for dot `i`: the step for
     * `delta` time units, then, if the dot avoids others, the avoidance pass.
     * The dot ends exactly one step from where it was; no dot changes
     * anything but its heading and vector besides that; nothing turns
     * unless dot `i` avoids others, and then the dots have Avoided each other
     * as the table and the stepped dots say.
     */
    method Travel(i: int, delta: real) returns (step: Vector)
      requires Valid() && 0 <= i < |dots|
      modifies this`dots
      ensures step.xOff == old(dots[i].vector.xOff) * delta && step.yOff == old(dots[i].vector.yOff) * delta
      ensures Valid() && |dots| == |old(dots)|
      ensures dots[i].x == old(dots[i].x) + step.xOff && dots[i].y == old(dots[i].y) + step.yOff
      ensures dots[i] == old(dots[i]).(x := dots[i].x, y := dots[i].y, direction := dots[i].direction,
                                       vector := dots[i].vector)
      ensures forall j :: 0 <= j < |dots| && j != i ==>
        dots[j] == old(dots[j]).(direction := dots[j].direction, vector := dots[j].vector)
      ensures !old(dots[i].avoidEachOther) ==> dots == old(dots)[i := old(dots[i]).Offset(step.xOff, step.yOff)]
      ensures var moved := old(dots)[i := old(dots[i]).Offset(step.xOff, step.yOff)];
        old(dots[i].avoidEachOther) ==> Avoided(num, sectors, moved, old(dots), dots, i, dots[i].direction)
    {
      var d := dots[i];
      step := CalculateDeltaVector(d.x, d.y, d.vector, d.speed, d.direction, delta);
      dots := dots[i := d.Offset(step.xOff, step.yOff)];
      SameCellsKeep(sectors, old(dots), dots);
      if dots[i].avoidEachOther {
        ghost var moved := dots;
        AvoidNeighbours(i, step);
        SwervedSettled(num, old(dots), moved, dots, dots, i, Hits(num, sectors, moved, i));
      }
    }

    /**
     * Dot.move (dots.js:107-161) for dot `i`: take the step for `delta` time
     * units, let close neighbours turn it (`turned` is the heading they
     * leave), reflect it off the edges, and re-register it. Its position and
     * heading are then Advance from where it was along the turned heading, it
     * is in exactly the cells it lists, no other id moved between cells, and
     * other dots changed at most their headings (none at all if dot `i` does
     * not avoid others). If it does, the dots have Avoided each other: every
     * other dot turned by its avoidance angle once for each of dot `i`'s
     * cells that holds it when it is close (Hits), and is untouched when it
     * never met dot `i`; `turned` is dot `i`'s heading plus all those turns.
     */
    method Move(i: int, delta: real) returns (ghost turned: real)
      requires Valid() && 0 <= i < |dots|
      modifies this`dots, this`sectors
      ensures Valid() && |dots| == |old(dots)|
      ensures dots[i].Motion() == Advance(num, old(dots[i].Motion()).(direction := turned),
                                          old(dots[i].vector.xOff), old(dots[i].vector.yOff),
                                          delta, dots[i].radius, width, height)
      ensures !old(dots[i].avoidEachOther) ==> turned == old(dots[i].direction)
      ensures dots[i] == old(dots[i]).(x := dots[i].x, y := dots[i].y, direction := dots[i].direction,
                                       vector := dots[i].vector, sectors := dots[i].sectors)
      ensures forall j :: 0 <= j < |dots| && j != i ==>
        dots[j] == old(dots[j]).(direction := dots[j].direction, vector := dots[j].vector)
      ensures !old(dots[i].avoidEachOther) ==> forall j :: 0 <= j < |dots| && j != i ==> dots[j] == old(dots[j])
      ensures var moved := old(dots)[i := old(dots[i]).Offset(old(dots[i].vector.xOff) * delta, old(dots[i].vector.yOff) * delta)];
        old(dots[i].avoidEachOther) ==> Avoided(num, old(sectors), moved, old(dots), dots, i, turned)
      ensures dots[i].sectors == Memberships(old(sectors), dots[i].OwnCell(sectorSize), dots[i].AheadCell(num, sectorSize))
      ensures IndexedIn(sectors, dots[i])
      ensures forall j :: 0 <= j < |dots| && j != i && old(IndexedIn(sectors, dots[j])) ==> IndexedIn(sectors, dots[j])
    {
      var step := Travel(i, delta);
      ghost var stepped := dots;
      ghost var moved := old(dots)[i := old(dots[i]).Offset(old(dots[i].vector.xOff) * delta, old(dots[i].vector.yOff) * delta)];
      turned := dots[i].direction;
      Settle(i, step, old(dots[i].Motion()).(direction := turned), old(dots[i].vector.xOff), old(dots[i].vector.yOff), delta);
      if old(dots[i].avoidEachOther) {
        AvoidedKeeps(num, old(sectors), moved, old(dots), stepped, dots, i, turned);
      }
      SameCellsKeep(old(sectors), old(dots), stepped);
    }

    /**
     * The second half of Dot.move (dots.js:130-160) for dot `i`, which has
     * just taken `step` from `start`: reflect it off the edges, then
     * re-register it. Only dot `i` changes, and it has then made the move
     * Advance describes; it is in exactly the cells it lists, and every other
     * dot that was so still is.
     */
    method Settle(i: int, step: Vector, ghost start: Motion, ghost xOff: real, ghost yOff: real, ghost delta: real)
      requires Valid() && 0 <= i < |dots|
      requires step.xOff == xOff * delta && step.yOff == yOff * delta
      requires dots[i].x == start.x + step.xOff && dots[i].y == start.y + step.yOff && dots[i].direction == start.direction
      modifies this`dots, this`sectors
      ensures Valid() && |dots| == |old(dots)|
      ensures dots[i].Motion() == Advance(num, start, xOff, yOff, delta, dots[i].radius, width, height)
      ensures dots[i] == old(dots[i]).(x := dots[i].x, y := dots[i].y, direction := dots[i].direction,
                                       vector := dots[i].vector, sectors := dots[i].sectors)
      ensures dots == old(dots)[i := dots[i]]
      ensures dots[i].sectors == Memberships(old(sectors), dots[i].OwnCell(sectorSize), dots[i].AheadCell(num, sectorSize))
      ensures IndexedIn(sectors, dots[i])
      ensures forall j :: 0 <= j < |dots| && j != i && old(IndexedIn(sectors, dots[j])) ==> IndexedIn(sectors, dots[j])
    {
      var bounced := Bounce(num, dots[i], step, width, height);
      StepThenReflect(num, start, xOff, yOff, delta, step.xOff, step.yOff, dots[i].Motion(), bounced.Motion(),
                      bounced.radius, width, height);
      var registered := RegisterDotSectors(bounced);
      RegisterKeeps(num, old(sectors), old(dots), i, registered, sectors);
      dots := dots[i := registered];
    }

    /**
     * Engine.draw (dots.js:478-487) without the canvas: every dot moves, last
     * first (Dot.draw, dots.js:71-73, is the move; the rest of it paints).
     * Afterwards each dot is in exactly the cells it lists, among them its
     * own cell, only positions, headings, vectors and cells have changed, and
     * when no dot avoids others each one has made the step Advance describes
     * from where it was and lists exactly its Memberships there.
     */
    method Draw(delta: real)
      requires Valid()
      modifies this`dots, this`sectors
      ensures Valid() && |dots| == |old(dots)|
      ensures forall j :: 0 <= j < |dots| ==> IndexedIn(sectors, dots[j])
      ensures forall j :: 0 <= j < |dots| ==>
        dots[j] == old(dots[j]).(x := dots[j].x, y := dots[j].y, direction := dots[j].direction,
                                 vector := dots[j].vector, sectors := dots[j].sectors)
      ensures (forall j :: 0 <= j < |dots| ==> !old(dots[j].avoidEachOther)) ==>
        forall j :: 0 <= j < |dots| ==>
          dots[j].Motion() == Advance(num, old(dots[j].Motion()), old(dots[j].vector.xOff), old(dots[j].vector.yOff),
                                      delta, dots[j].radius, width, height)
      ensures OwnCellsListed(sectors, dots, 0, sectorSize)
      ensures (forall j :: 0 <= j < |dots| ==> !old(dots[j].avoidEachOther)) ==> RegisteredFrom(num, sectors, dots, 0, sectorSize)
    {
      ghost var still := forall j :: 0 <= j < |dots| ==> !dots[j].avoidEachOther;
      var i := |dots| - 1;
      while i >= 0
        invariant -1 <= i < |dots| == |old(dots)|
        invariant Valid()
        invariant forall j :: i < j < |dots| ==> IndexedIn(sectors, dots[j])
        invariant forall j :: 0 <= j < |dots| ==> Reshaped(old(dots), dots, j)
        invariant still ==> forall j :: 0 <= j <= i ==> dots[j] == old(dots[j])
        invariant still ==> forall j :: i < j < |dots| ==>
          dots[j].Motion() == Advance(num, old(dots[j].Motion()), old(dots[j].vector.xOff), old(dots[j].vector.yOff),
                                      delta, dots[j].radius, width, height)
        invariant OwnCellsListed(sectors, dots, i + 1, sectorSize)
        invariant still ==> RegisteredFrom(num, sectors, dots, i + 1, sectorSize)
      {
        ghost var ds, t := dots, sectors;
        ghost var turned := Move(i, delta);
        ReshapedAfterMove(old(dots), ds, dots, i);
        ListedAfterMove(num, t, sectors, Extent(), ds, dots, i, sectorSize);
        if still {
          RegisteredAfterMove(num, t, sectors, Extent(), ds, dots, i, sectorSize);
        }
        i := i - 1;
      }
      forall j | 0 <= j < |dots|
        ensures dots[j] == old(dots[j]).(x := dots[j].x, y := dots[j].y, direction := dots[j].direction,
                                         vector := dots[j].vector, sectors := dots[j].sectors)
      {
        assert Reshaped(old(dots), dots, j);
      }
    }

    /**
     * Engine.generateRandomDot (dots.js:539-555) with the random draws passed
     * in: a new dot whose position, radius, colour, speed and heading come
     * from the draws (the heading is `draw * 360`, taken as radians), which
     * registers in the table as the Dot constructor does, and is then pushed
     * back by its overshoot without re-registering: each coordinate is
     * clamped into the usable region, which it then lies in whenever the
     * canvas is at least one diameter wide and high.
     */
    method GenerateRandomDot(id: int, s: Spawn) returns (d: Dot)
      requires Ready()
      modifies this`sectors
      ensures Ready() && sectors.Keys == old(sectors).Keys && d.Valid(num) && KeysIn(d.sectors, sectors)
      ensures d.id == id && FromDraws(d, s) && d.direction == s.direction * 360.0
      ensures d.showVector && d.showInfo && !d.avoidEachOther
      ensures d.x == Clamp(Scaled(s.x, width) as real, d.radius, width - d.radius)
      ensures d.y == Clamp(Scaled(s.y, height) as real, d.radius, height - d.radius)
      ensures 2.0 * d.radius <= width && 2.0 * d.radius <= height ==> InBounds(d.x, d.y, d.radius, width, height)
      ensures d == Generated(num, old(sectors), id, s, width, height, sectorSize)
      ensures sectors == Insert(old(sectors), id, d.sectors)
    {
      var x := Scaled(s.x, width) as real;
      var y := Scaled(s.y, height) as real;
      var radius := (Scaled(s.radius, 8.0) + 3) as real;
      var speed := (Scaled(s.speed, 20.0) + 10) as real;
      var direction := s.direction * 360.0;
      d := NewDot(num, id, x, y, radius, FillStyle(s), direction, speed);
      ghost var born := d;
      assert born == Born(num, id, s, width, height);
      assert Purge(sectors, id, []) == sectors;
      d := RegisterDotSectors(d);
      ghost var registered := d;
      var oob := IsOutOfBounds(d.x, d.y, d.radius, width, height);
      if oob.Some? {
        OvershootSigns(x, y, radius, width, height);
        d := d.Offset(-oob.value.x, -oob.value.y);
      }
      assert d.x == Clamp(x, radius, width - radius) && d.y == Clamp(y, radius, height - radius);
      assert d == registered.(x := d.x, y := d.y);
      if 2.0 * radius <= width && 2.0 * radius <= height {
        ClampPutsInBounds(x, y, radius, width, height);
      }
    }

    /**
     * The loop of Engine.start that makes the dots (dots.js:349-352): dot `j`
     * gets id `j + 1` and the fields of draw `j`; the table keeps its cells.
     */
    method SpawnDots(dotCount: int, draws: seq<Spawn>)
      requires Ready() && |draws| == if dotCount < 0 then 0 else dotCount
      modifies this`dots, this`sectors
      ensures Ready() && |dots| == |draws| && Numbered(dots) && AllFit(num, sectors, dots)
      ensures forall j :: 0 <= j < |dots| ==> FromDraws(dots[j], draws[j]) && dots[j].direction == draws[j].direction * 360.0
      ensures forall j :: 0 <= j < |dots| ==> dots[j] == Generated(num, old(sectors), j + 1, draws[j], width, height, sectorSize)
      ensures Enrolled(old(sectors), sectors, dots)
    {
      dots := [];
      var i := 0;
      while i < dotCount
        invariant 0 <= i <= |draws| && |dots| == i
        invariant Ready() && Numbered(dots) && AllFit(num, sectors, dots)
        invariant forall j :: 0 <= j < i ==> dots[j] == Generated(num, old(sectors), j + 1, draws[j], width, height, sectorSize)
        invariant Enrolled(old(sectors), sectors, dots)
      {
        ghost var before := sectors;
        var d := GenerateRandomDot(i + 1, draws[i]);
        GeneratedFields(num, before, old(sectors), i + 1, draws[i], width, height, sectorSize);
        FitsOneMore(num, before, sectors, dots, d);
        EnrolledOneMore(old(sectors), before, dots, d, sectors);
        dots := dots + [d];
        i := i + 1;
      }
      forall j | 0 <= j < |dots|
        ensures FromDraws(dots[j], draws[j]) && dots[j].direction == draws[j].direction * 360.0
      {
        GeneratedFields(num, old(sectors), old(sectors), j + 1, draws[j], width, height, sectorSize);
      }
    }

    /**
     * The broadcast loops of showVectors, showInfo and avoidEachOther
     * (dots.js:503-533): from index `dots.length` down to 0, each index that
     * holds a dot gets the switch set. Every dot has it set afterwards, and
     * nothing else changes.
     */
    method Broadcast(f: Flag, on: bool)
      modifies this`dots
      ensures |dots| == |old(dots)|
      ensures forall j :: 0 <= j < |dots| ==> dots[j] == Switch(old(dots[j]), f, on)
      ensures old(Valid()) ==> Valid()
    {
      var i := |dots|;
      while i >= 0
        invariant -1 <= i <= |dots| == |old(dots)|
        invariant forall j :: 0 <= j < |dots| ==> dots[j] == if i < j then Switch(old(dots[j]), f, on) else old(dots[j])
      {
        if i < |dots| {
          dots := dots[i := Switch(dots[i], f, on)];
        }
        i := i - 1;
      }
      SameCellsKeep(sectors, old(dots), dots);
    }

    /** Engine.showVectors (dots.js:503-509). */
    method ShowVectors(show: bool)
      modifies this`dots
      ensures |dots| == |old(dots)|
      ensures forall j :: 0 <= j < |dots| ==> dots[j] == old(dots[j]).(showVector := show)
      ensures old(Valid()) ==> Valid()
    {
      Broadcast(VectorFlag, show);
    }

    /** Engine.showInfo (dots.js:515-521). */
    method ShowInfo(show: bool)
      modifies this`dots
      ensures |dots| == |old(dots)|
      ensures forall j :: 0 <= j < |dots| ==> dots[j] == old(dots[j]).(showInfo := show)
      ensures old(Valid()) ==> Valid()
    {
      Broadcast(InfoFlag, show);
    }

    /** Engine.avoidEachOther (dots.js:527-533). */
    method AvoidEachOther(avoid: bool)
      modifies this`dots
      ensures |dots| == |old(dots)|
      ensures forall j :: 0 <= j < |dots| ==> dots[j] == old(dots[j]).(avoidEachOther := avoid)
      ensures old(Valid()) ==> Valid()
    {
      Broadcast(AvoidFlag, avoid);
    }

    /**
     * Engine.run (dots.js:388-401), one cycle, with the clock reading `now`
     * passed in: only while running, every dot moves by the time since the
     * last cycle and that time is reset; when stopped, nothing changes. The
     * request for the next frame is left to the caller.
     */
    method Run(now: real)
      requires Valid()
      modifies this`dots, this`sectors, this`lastCycleTime
      ensures Valid() && |dots| == |old(dots)|
      ensures lastCycleTime == if running then now else old(lastCycleTime)
      ensures !running ==> dots == old(dots) && sectors == old(sectors)
      ensures running ==> forall j :: 0 <= j < |dots| ==> IndexedIn(sectors, dots[j])
      ensures forall j :: 0 <= j < |dots| ==>
        dots[j] == old(dots[j]).(x := dots[j].x, y := dots[j].y, direction := dots[j].direction,
                                 vector := dots[j].vector, sectors := dots[j].sectors)
      ensures running && (forall j :: 0 <= j < |dots| ==> !old(dots[j].avoidEachOther)) ==>
        forall j :: 0 <= j < |dots| ==>
          dots[j].Motion() == Advance(num, old(dots[j].Motion()), old(dots[j].vector.xOff), old(dots[j].vector.yOff),
                                      now - old(lastCycleTime), dots[j].radius, width, height)
      ensures running ==> OwnCellsListed(sectors, dots, 0, sectorSize)
      ensures running && (forall j :: 0 <= j < |dots| ==> !old(dots[j].avoidEachOther)) ==>
        RegisteredFrom(num, sectors, dots, 0, sectorSize)
    {
      if running {
        var delta := now - lastCycleTime;
        Draw(delta);
        lastCycleTime := now;
      }
    }

    /** Engine.stop (dots.js:379-382): the engine is no longer running. */
    method Stop()
      modifies this`running
      ensures !running
    {
      running := false;
    }

    /**
     * Engine.proceed (dots.js:367-374), with the clock readings passed in:
     * only a stopped engine is affected. It runs again, its clock is reset to
     * `now`, and one cycle follows at `later`, so the dots move by
     * `later - now`.
     */
    method Proceed(now: real, later: real)
      requires Valid()
      modifies this`running, this`lastCycleTime, this`dots, this`sectors
      ensures Valid() && running && |dots| == |old(dots)|
      ensures old(running) ==> lastCycleTime == old(lastCycleTime) && dots == old(dots) && sectors == old(sectors)
      ensures !old(running) ==> lastCycleTime == later && forall j :: 0 <= j < |dots| ==> IndexedIn(sectors, dots[j])
      ensures forall j :: 0 <= j < |dots| ==>
        dots[j] == old(dots[j]).(x := dots[j].x, y := dots[j].y, direction := dots[j].direction,
                                 vector := dots[j].vector, sectors := dots[j].sectors)
      ensures !old(running) && (forall j :: 0 <= j < |dots| ==> !old(dots[j].avoidEachOther)) ==>
        forall j :: 0 <= j < |dots| ==>
          dots[j].Motion() == Advance(num, old(dots[j].Motion()), old(dots[j].vector.xOff), old(dots[j].vector.yOff),
                                      later - now, dots[j].radius, width, height)
      ensures !old(running) ==> OwnCellsListed(sectors, dots, 0, sectorSize)
      ensures !old(running) && (forall j :: 0 <= j < |dots| ==> !old(dots[j].avoidEachOther)) ==>
        RegisteredFrom(num, sectors, dots, 0, sectorSize)
    {
      if !running {
        running := true;
        lastCycleTime := now;
        Run(later);
      }
    }

    /** The three broadcasts of Engine.start (dots.js:355-357), in its order. */
    method Broadcasts(showVector: bool, showInfo: bool, avoid: bool)
      modifies this`dots
      ensures |dots| == |old(dots)|
      ensures forall j :: 0 <= j < |dots| ==>
        dots[j] == old(dots[j]).(showVector := showVector, showInfo := showInfo, avoidEachOther := avoid)
      ensures SameCells(old(dots), dots)
    {
      ShowVectors(showVector);
      ShowInfo(showInfo);
      AvoidEachOther(avoid);
    }

    /**
     * Engine.start (dots.js:347-362), with the random draws and the clock
     * readings passed in: `dotCount` new dots numbered from 1, the switches
     * broadcast, the engine running, a new empty table, and one cycle at
     * `later`. The new table leaves every dot out of it until that cycle
     * moves the dot, and after it every dot is in exactly the cells it lists.
     */
    method Start(dotCount: int, draws: seq<Spawn>, clearCanvas: bool, showVector: bool, showInfo: bool,
                 avoid: bool, now: real, later: real)
      requires Ready() && |draws| == if dotCount < 0 then 0 else dotCount
      modifies this`dots, this`sectors, this`clearCanvas, this`running, this`lastCycleTime
      ensures Valid() && running && lastCycleTime == later && this.clearCanvas == clearCanvas
      ensures |dots| == |draws|
      ensures forall j :: 0 <= j < |dots| ==> IndexedIn(sectors, dots[j]) && FromDraws(dots[j], draws[j])
      ensures forall j :: 0 <= j < |dots| ==>
        dots[j].showVector == showVector && dots[j].showInfo == showInfo && dots[j].avoidEachOther == avoid
      ensures forall j :: 0 <= j < |dots| ==> var p := Placed(num, j + 1, draws[j], width, height);
        dots[j] == p.(x := dots[j].x, y := dots[j].y, direction := dots[j].direction, vector := dots[j].vector,
                      sectors := dots[j].sectors, showVector := showVector, showInfo := showInfo, avoidEachOther := avoid)
      ensures !avoid ==> forall j :: 0 <= j < |dots| ==> var p := Placed(num, j + 1, draws[j], width, height);
        dots[j].Motion() == Advance(num, p.Motion(), p.vector.xOff, p.vector.yOff, later - now, p.radius, width, height)
      ensures OwnCellsListed(sectors, dots, 0, sectorSize)
      ensures !avoid ==> RegisteredFrom(num, sectors, dots, 0, sectorSize)
    {
      SpawnDots(dotCount, draws);
      this.clearCanvas := clearCanvas;
      Broadcasts(showVector, showInfo, avoid);
      ghost var before := sectors;
      running := true;
      lastCycleTime := now;
      BuildSectors();
      FreshTable(num, before, sectors, dots);
      Run(later);
    }
  }
}
