/** Integer rectangles with the semantics of pygame's `Rect`, the two sprite
    collision queries built on them, and the numeric helpers of the game. */
module Geometry {

  /** A rectangle `{left, top, w, h}` in arena pixels. */
  datatype Rect = Rect(left: int, top: int, w: nat, h: nat) {
    function Right(): int { left + w }
    function Bottom(): int { top + h }
    /** pygame's `centerx`: the left edge plus half the width, rounded down. */
    function CenterX(): int { left + w / 2 }
    function CenterY(): int { top + h / 2 }
  }

  /** `Rect.colliderect`: strict overlap on both axes, so rectangles that only
      touch along an edge do not collide; a rectangle of zero size collides
      with nothing. */
  predicate Collide(a: Rect, b: Rect): (c: bool)
    ensures c ==> a.w > 0 && a.h > 0 && b.w > 0 && b.h > 0
    ensures a.Right() <= b.left || b.Right() <= a.left || a.Bottom() <= b.top || b.Bottom() <= a.top ==> !c
  {
    a.w > 0 && a.h > 0 && b.w > 0 && b.h > 0 &&
    a.left < b.Right() && b.left < a.Right() &&
    a.top < b.Bottom() && b.top < a.Bottom()
  }

  /** `surface.get_rect(center=(cx, cy))` for a `w`×`h` surface. */
  function AtCenter(cx: int, cy: int, w: nat, h: nat): (r: Rect)
    ensures r.w == w && r.h == h
    ensures r.CenterX() == cx && r.CenterY() == cy
  {
    Rect(cx - w / 2, cy - h / 2, w, h)
  }

  // The attribute setters of pygame's Rect: each one moves the rectangle
  // along one axis so that the named edge or centre lands on the given value.

  function WithCenterX(r: Rect, cx: int): (s: Rect)
    ensures s.CenterX() == cx && s.top == r.top && s.w == r.w && s.h == r.h
  {
    r.(left := cx - r.w / 2)
  }

  function WithCenterY(r: Rect, cy: int): (s: Rect)
    ensures s.CenterY() == cy && s.left == r.left && s.w == r.w && s.h == r.h
  {
    r.(top := cy - r.h / 2)
  }

  function WithRight(r: Rect, x: int): (s: Rect)
    ensures s.Right() == x && s.top == r.top && s.w == r.w && s.h == r.h
  {
    r.(left := x - r.w)
  }

  function WithBottom(r: Rect, y: int): (s: Rect)
    ensures s.Bottom() == y && s.left == r.left && s.w == r.w && s.h == r.h
  {
    r.(top := y - r.h)
  }

  lemma CollideSymmetric(a: Rect, b: Rect)
    ensures Collide(a, b) == Collide(b, a)
  {
  }

  /** `pygame.sprite.spritecollideany(sprite, group)`. */
  predicate CollidesAny(r: Rect, group: seq<Rect>): (c: bool)
    ensures group == [] ==> !c
  {
    exists i :: 0 <= i < |group| && Collide(r, group[i])
  }

  /** `pygame.sprite.spritecollide(sprite, group)`: the members of `group`
      that collide with `r`, in the group's order. */
  function Hits(r: Rect, group: seq<Rect>): (hs: seq<Rect>)
    ensures |hs| <= |group|
    ensures forall i :: 0 <= i < |hs| ==> Collide(r, hs[i])
    ensures hs == [] <==> !CollidesAny(r, group)
  {
    if group == [] then []
    else
      var rest := Hits(r, group[1..]);
      assert forall i :: 1 <= i < |group| ==> group[i] == group[1..][i - 1];
      if Collide(r, group[0]) then [group[0]] + rest else rest
  }

  /** What is left of `group` once `spritecollide(..., dokill=True)` has
      removed the members that collide with `r`, in the group's order. */
  function Survivors(r: Rect, group: seq<Rect>): (ss: seq<Rect>)
    ensures |ss| <= |group|
    ensures forall i :: 0 <= i < |ss| ==> !Collide(r, ss[i])
  {
    if group == [] then []
    else
      var rest := Survivors(r, group[1..]);
      if Collide(r, group[0]) then rest else [group[0]] + rest
  }

  /** The collision query reports exactly the members that collide, and
      exactly the others survive it. */
  lemma {:induction false} HitsExactly(r: Rect, group: seq<Rect>)
    ensures forall x :: x in Hits(r, group) <==> x in group && Collide(r, x)
    ensures forall x :: x in Survivors(r, group) <==> x in group && !Collide(r, x)
  {
    if group != [] {
      HitsExactly(r, group[1..]);
      assert group == [group[0]] + group[1..];
    }
  }

  /** A collision query splits a group exactly: what it reports and what
      survives it are the whole group, with multiplicities. */
  lemma {:induction false} HitsAndSurvivorsPartition(r: Rect, group: seq<Rect>)
    ensures multiset(Hits(r, group)) + multiset(Survivors(r, group)) == multiset(group)
    ensures |Hits(r, group)| + |Survivors(r, group)| == |group|
  {
    if group != [] {
      HitsAndSurvivorsPartition(r, group[1..]);
      assert group == [group[0]] + group[1..];
    }
  }

  /** The members of a group are pairwise disjoint (no two of them collide). */
  predicate Disjoint(group: seq<Rect>) {
    forall i, j :: 0 <= i < j < |group| ==> !Collide(group[i], group[j])
  }

  /** Removing the colliding members keeps a disjoint group disjoint. */
  lemma {:induction false} SurvivorsKeepDisjoint(r: Rect, group: seq<Rect>)
    requires Disjoint(group)
    ensures Disjoint(Survivors(r, group))
  {
    if group != [] {
      var tail := group[1..];
      assert Disjoint(tail) by {
        forall i, j | 0 <= i < j < |tail| ensures !Collide(tail[i], tail[j]) {
          assert tail[i] == group[i + 1] && tail[j] == group[j + 1];
        }
      }
      SurvivorsKeepDisjoint(r, tail);
      if !Collide(r, group[0]) {
        var s := Survivors(r, group);
        HitsExactly(r, tail);
        forall j | 0 < j < |s| ensures !Collide(s[0], s[j]) {
          assert s[j] in tail;
          var k :| 0 <= k < |tail| && tail[k] == s[j];
          assert group[k + 1] == s[j];
        }
      }
    }
  }

  /** Python's built-in `round` on a number, as `int(round(x))` uses it:
      the nearest integer, with halves going to the even neighbour. */
  function Round(x: real): (n: int)
    ensures -0.5 <= x - n as real <= 0.5
    ensures x - n as real == 0.5 || x - n as real == -0.5 ==> n % 2 == 0
  {
    var f := x.Floor;
    var d := x - f as real;
    if d < 0.5 then f
    else if d > 0.5 then f + 1
    else if f % 2 == 0 then f
    else f + 1
  }

  /** Rounding a whole number gives it back. */
  lemma RoundWhole(n: int)
    ensures Round(n as real) == n
  {
  }

  /** `_clamp(value, lo, hi)`, that is `max(lo, min(hi, value))`. */
  function Clamp(value: real, lo: real, hi: real): (r: real)
    ensures lo <= hi ==> lo <= r <= hi
    ensures lo <= value <= hi ==> r == value
    ensures lo <= hi && value < lo ==> r == lo
    ensures lo <= hi && hi < value ==> r == hi
    ensures hi < lo ==> r == lo
  {
    var m := if hi < value then hi else value;
    if lo < m then m else lo
  }
}
