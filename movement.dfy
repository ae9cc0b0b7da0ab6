/** `Game._move_player_axis`: move the player along one axis, then push its
    rectangle out of every wall it now overlaps. */
module Movement {
  import opened Geometry

  datatype Axis = X | Y

  /** The part of the player that moving touches: the float position
      `pos` and the integer rectangle `rect`. */
  datatype Body = Body(x: real, y: real, rect: Rect)

  /** The rectangle is placed where the position rounds to on both axes. */
  predicate Synced(b: Body) {
    Round(b.x) == b.rect.CenterX() && Round(b.y) == b.rect.CenterY()
  }

  /** The rectangle after one wall of the hit list has been processed: moving
      right or down puts its leading edge on the wall's near edge, moving left
      or up puts its trailing edge on the wall's far edge, and a zero move
      leaves it where it is. */
  function Snap(r: Rect, axis: Axis, amount: real, wall: Rect): (s: Rect)
    ensures s.w == r.w && s.h == r.h
    ensures axis == X ==> s.top == r.top
    ensures axis == Y ==> s.left == r.left
    ensures amount == 0.0 ==> s == r
    ensures amount != 0.0 ==> !Collide(s, wall)
  {
    match axis
    case X =>
      if amount > 0.0 then WithRight(r, wall.left)
      else if amount < 0.0 then r.(left := wall.Right())
      else r
    case Y =>
      if amount > 0.0 then WithBottom(r, wall.top)
      else if amount < 0.0 then r.(top := wall.Bottom())
      else r
  }

  /** The rectangle after the whole hit list has been processed in order. */
  function SnapAll(r: Rect, axis: Axis, amount: real, hits: seq<Rect>): (s: Rect)
    ensures s.w == r.w && s.h == r.h
    ensures axis == X ==> s.top == r.top
    ensures axis == Y ==> s.left == r.left
    decreases |hits|
  {
    if hits == [] then r
    else Snap(SnapAll(r, axis, amount, hits[..|hits| - 1]), axis, amount, hits[|hits| - 1])
  }

  /** Each snap sets the moved edge outright, so only the last wall of the
      list decides where the rectangle ends up. */
  lemma {:induction false} SnapAllIsLast(r: Rect, axis: Axis, amount: real, hits: seq<Rect>)
    requires hits != []
    ensures SnapAll(r, axis, amount, hits) == Snap(r, axis, amount, hits[|hits| - 1])
    decreases |hits|
  {
    var init := hits[..|hits| - 1];
    if init != [] {
      SnapAllIsLast(r, axis, amount, init);
    }
  }

  /** The position coordinate and rectangle centre on `axis`. */
  function Coord(b: Body, axis: Axis): real {
    if axis == X then b.x else b.y
  }

  function Center(r: Rect, axis: Axis): int {
    if axis == X then r.CenterX() else r.CenterY()
  }

  /** The rectangle re-centred on the rounded position along `axis`. */
  function Recenter(r: Rect, axis: Axis, p: real): (s: Rect)
    ensures Center(s, axis) == Round(p) && s.w == r.w && s.h == r.h
    ensures axis == X ==> s.top == r.top
    ensures axis == Y ==> s.left == r.left
  {
    if axis == X then WithCenterX(r, Round(p)) else WithCenterY(r, Round(p))
  }

  /** The body with the coordinate on `axis` replaced. */
  function WithCoord(b: Body, axis: Axis, p: real, r: Rect): Body {
    if axis == X then Body(p, b.y, r) else Body(b.x, p, r)
  }

  /** `_move_player_axis(axis, amount)` against the wall list `walls`. */
  function MoveAxis(b: Body, axis: Axis, amount: real, walls: seq<Rect>): (o: Body)
    ensures axis == X ==> o.y == b.y && o.rect.top == b.rect.top
    ensures axis == Y ==> o.x == b.x && o.rect.left == b.rect.left
    ensures o.rect.w == b.rect.w && o.rect.h == b.rect.h
  {
    var p := Coord(b, axis) + amount;
    var moved := Recenter(b.rect, axis, p);
    var hits := Hits(moved, walls);
    if hits == [] then WithCoord(b, axis, p, moved)
    else
      var r := SnapAll(moved, axis, amount, hits);
      WithCoord(b, axis, Center(r, axis) as real, r)
  }

  /** The two axis moves of one frame of `Game.update`: first along x by
      `dx`, then along y by `dy`. */
  function Step(b: Body, dx: real, dy: real, walls: seq<Rect>): (o: Body)
    ensures o.rect.w == b.rect.w && o.rect.h == b.rect.h
  {
    MoveAxis(MoveAxis(b, X, dx, walls), Y, dy, walls)
  }

  /** `move * speed`, one component of the velocity. */
  function Velocity(move: real, speed: real): real {
    move * speed
  }

  /** One frame at velocity `(vx, vy)` for `dt` seconds. */
  function Travel(b: Body, vx: real, vy: real, dt: real, walls: seq<Rect>): (o: Body)
    ensures o.rect.w == b.rect.w && o.rect.h == b.rect.h
  {
    Step(b, Displacement(vx, dt), Displacement(vy, dt), walls)
  }

  /** `vel * dt`, how far one velocity component carries in a frame. */
  function Displacement(v: real, dt: real): real {
    v * dt
  }

  /** A frame's moves keep the rectangle on the rounded position. */
  lemma TravelKeepsSynced(b: Body, vx: real, vy: real, dt: real, walls: seq<Rect>)
    requires Synced(b)
    ensures Synced(Travel(b, vx, vy, dt, walls))
  {
    MoveKeepsSynced(b, X, Displacement(vx, dt), walls);
    MoveKeepsSynced(MoveAxis(b, X, Displacement(vx, dt), walls), Y, Displacement(vy, dt), walls);
  }

  /** With no wall hit, the move is the add plus re-rounding alone. */
  lemma FreeMove(b: Body, axis: Axis, amount: real, walls: seq<Rect>)
    requires !CollidesAny(Recenter(b.rect, axis, Coord(b, axis) + amount), walls)
    ensures var o := MoveAxis(b, axis, amount, walls);
      Coord(o, axis) == Coord(b, axis) + amount &&
      o.rect == Recenter(b.rect, axis, Coord(b, axis) + amount)
  {
  }

  /** After a hit, the position on `axis` is the rectangle's centre, and a
      non-zero move leaves the rectangle clear of the last wall it hit. */
  lemma BlockedMove(b: Body, axis: Axis, amount: real, walls: seq<Rect>)
    requires CollidesAny(Recenter(b.rect, axis, Coord(b, axis) + amount), walls)
    ensures var o := MoveAxis(b, axis, amount, walls);
      var hits := Hits(Recenter(b.rect, axis, Coord(b, axis) + amount), walls);
      hits != [] &&
      Coord(o, axis) == Center(o.rect, axis) as real &&
      o.rect == Snap(Recenter(b.rect, axis, Coord(b, axis) + amount), axis, amount, hits[|hits| - 1]) &&
      (amount != 0.0 ==> !Collide(o.rect, hits[|hits| - 1]))
  {
    var moved := Recenter(b.rect, axis, Coord(b, axis) + amount);
    SnapAllIsLast(moved, axis, amount, Hits(moved, walls));
  }

  /** A zero move does not move the rectangle of a synced body, whether or
      not it overlaps a wall. */
  lemma ZeroMoveKeepsRect(b: Body, axis: Axis, walls: seq<Rect>)
    requires Synced(b)
    ensures MoveAxis(b, axis, 0.0, walls).rect == b.rect
  {
    var moved := Recenter(b.rect, axis, Coord(b, axis));
    assert moved == b.rect;
    var hits := Hits(moved, walls);
    if hits != [] {
      SnapAllIsLast(moved, axis, 0.0, hits);
    }
  }

  /** Moving keeps the rectangle where the position rounds to. */
  lemma MoveKeepsSynced(b: Body, axis: Axis, amount: real, walls: seq<Rect>)
    requires Synced(b)
    ensures Synced(MoveAxis(b, axis, amount, walls))
  {
    var moved := Recenter(b.rect, axis, Coord(b, axis) + amount);
    var hits := Hits(moved, walls);
    if hits != [] {
      var r := SnapAll(moved, axis, amount, hits);
      RoundWhole(Center(r, axis));
    }
  }

  /** Wall `near` blocks a move along `axis` no later than wall `w` does. */
  predicate NoFartherThan(axis: Axis, amount: real, near: Rect, w: Rect) {
    match axis
    case X => (amount > 0.0 ==> near.left <= w.left) && (amount < 0.0 ==> w.Right() <= near.Right())
    case Y => (amount > 0.0 ==> near.top <= w.top) && (amount < 0.0 ==> w.Bottom() <= near.Bottom())
  }

  /** The last wall of the list is the nearest one in the direction of the
      move. */
  predicate LastIsNearest(axis: Axis, amount: real, hits: seq<Rect>)
    requires hits != []
  {
    forall i :: 0 <= i < |hits| ==> NoFartherThan(axis, amount, hits[|hits| - 1], hits[i])
  }

  /** The code resolves against each hit wall in turn, so in general only the
      last one is guaranteed to be cleared. When that last wall is also the
      nearest, a non-zero move leaves the rectangle clear of every wall it
      hit. */
  lemma NearestLastClearsAll(b: Body, axis: Axis, amount: real, walls: seq<Rect>)
    requires amount != 0.0
    requires var hits := Hits(Recenter(b.rect, axis, Coord(b, axis) + amount), walls);
      hits != [] && LastIsNearest(axis, amount, hits)
    ensures var hits := Hits(Recenter(b.rect, axis, Coord(b, axis) + amount), walls);
      forall i :: 0 <= i < |hits| ==> !Collide(MoveAxis(b, axis, amount, walls).rect, hits[i])
  {
    var moved := Recenter(b.rect, axis, Coord(b, axis) + amount);
    var hits := Hits(moved, walls);
    SnapAllIsLast(moved, axis, amount, hits);
    var o := MoveAxis(b, axis, amount, walls);
    assert o.rect == Snap(moved, axis, amount, hits[|hits| - 1]) by {
      assert o.rect == SnapAll(moved, axis, amount, hits);
    }
    forall i | 0 <= i < |hits| ensures !Collide(o.rect, hits[i]) {
      SnapClearsFarther(moved, axis, amount, hits[|hits| - 1], hits[i]);
    }
  }

  /** Snapping against a wall also clears every wall that lies no nearer. */
  lemma SnapClearsFarther(r: Rect, axis: Axis, amount: real, near: Rect, w: Rect)
    requires amount != 0.0 && NoFartherThan(axis, amount, near, w)
    ensures !Collide(Snap(r, axis, amount, near), w)
  {
  }

  /** A single hit wall is always cleared by a non-zero move. */
  lemma SingleHitCleared(b: Body, axis: Axis, amount: real, walls: seq<Rect>)
    requires amount != 0.0
    requires |Hits(Recenter(b.rect, axis, Coord(b, axis) + amount), walls)| == 1
    ensures !CollidesAny(MoveAxis(b, axis, amount, walls).rect, Hits(Recenter(b.rect, axis, Coord(b, axis) + amount), walls))
  {
    NearestLastClearsAll(b, axis, amount, walls);
  }

  /** Clearing the hit walls is not clearing every wall: a long move can
      carry the rectangle over a wall, and the snap back against the wall it
      does hit then lands it on the wall it jumped over. */
  lemma SnapCanEnterSkippedWall()
    ensures var walls := [Rect(100, 0, 10, 100), Rect(60, 0, 10, 100)];
      var b := Body(37.0, 50.0, Rect(20, 33, 34, 34));
      var moved := Recenter(b.rect, X, b.x + 75.0);
      Hits(moved, walls) == [walls[0]] &&
      !CollidesAny(MoveAxis(b, X, 75.0, walls).rect, Hits(moved, walls)) &&
      Collide(MoveAxis(b, X, 75.0, walls).rect, walls[1])
  {
    var walls := [Rect(100, 0, 10, 100), Rect(60, 0, 10, 100)];
    var b := Body(37.0, 50.0, Rect(20, 33, 34, 34));
    RoundWhole(112);
    var moved := Recenter(b.rect, X, b.x + 75.0);
    assert moved == Rect(95, 33, 34, 34);
    assert Hits(moved, walls) == [walls[0]] by {
      assert walls[1..] == [walls[1]];
      assert Hits(moved, [walls[1]]) == [];
    }
    assert MoveAxis(b, X, 75.0, walls).rect == Rect(66, 33, 34, 34);
  }
}
