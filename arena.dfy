/** The fixed layout of the screen: the HUD strip, the playfield below it
    and the six walls every level is built with. */
module Arena {
  import opened Geometry

  const ScreenW: int := 960
  const ScreenH: int := 540
  const HudH: int := 64
  const Padding: int := 12
  /** Thickness of the border walls. */
  const WallThickness: nat := 16

  /** The playfield: the screen below the HUD, inset by the padding. */
  const Playfield: Rect := Rect(Padding, HudH + Padding, (ScreenW - 2 * Padding) as nat, (ScreenH - HudH - 2 * Padding) as nat)

  /** The walls of a level, in the order `_reset_level` adds them: the four
      borders (top, bottom, left, right), then the two inner bars. */
  function LevelWalls(): (ws: seq<Rect>)
    ensures |ws| == 6
  {
    var p := Playfield;
    [ Rect(p.left, p.top, p.w, WallThickness),
      Rect(p.left, p.Bottom() - WallThickness, p.w, WallThickness),
      Rect(p.left, p.top, WallThickness, p.h),
      Rect(p.Right() - WallThickness, p.top, WallThickness, p.h),
      Rect(p.left + 260, p.top + 80, 18, 220),
      Rect(p.left + 520, p.top + 200, 260, 18) ]
  }

  /** A box of up to 100×100 centred on the playfield, where a new player
      appears, overlaps none of the walls of a level. */
  lemma CentreClearOfWalls(w: nat, h: nat)
    requires w <= 100 && h <= 100
    ensures !CollidesAny(AtCenter(Playfield.CenterX(), Playfield.CenterY(), w, h), LevelWalls())
  {
    var r := AtCenter(Playfield.CenterX(), Playfield.CenterY(), w, h);
    var ws := LevelWalls();
    assert forall i :: 0 <= i < |ws| ==> !Collide(r, ws[i]);
  }
}
