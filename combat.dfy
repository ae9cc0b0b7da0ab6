/** Hit points, the post-hit invincibility timer and the HP bar colour band.
    Time is in seconds, as a real number. */
module Combat {

  const MaxHp: int := 100
  /** HP taken by one hazard contact. */
  const HitDamage: int := 20
  /** Length of the invincibility window opened by a hit, in seconds. */
  const InvincibleWindow: real := 0.65

  /** `Player.is_invincible`. */
  predicate Invincible(remaining: real) {
    remaining > 0.0
  }

  /** `Player.update(dt)`: a running timer counts down by `dt`, floored at
      zero; a timer that is not running is left alone. */
  function Tick(remaining: real, dt: real): (r: real)
    ensures !Invincible(remaining) ==> r == remaining
    ensures Invincible(remaining) ==> r >= 0.0 && r >= remaining - dt
    ensures Invincible(remaining) ==> r == 0.0 || r == remaining - dt
    ensures Invincible(remaining) && dt >= 0.0 ==> r <= remaining
    ensures remaining >= 0.0 && dt >= 0.0 ==> (Invincible(r) <==> remaining > dt)
  {
    if Invincible(remaining) then
      (if remaining - dt > 0.0 then remaining - dt else 0.0)
    else remaining
  }

  /** The player's HP and what is left of its invincibility window. */
  datatype Vitals = Vitals(hp: int, invincibleFor: real)

  /** `Game._apply_damage` on the player's vitals: no effect while
      invincible; otherwise 20 HP are lost, never going below zero, and a
      fresh window opens. */
  function Damage(v: Vitals): (o: Vitals)
    ensures Invincible(v.invincibleFor) ==> o == v
    ensures !Invincible(v.invincibleFor) ==> o.invincibleFor == InvincibleWindow
    ensures !Invincible(v.invincibleFor) && v.hp >= 0 ==> 0 <= o.hp <= v.hp
    ensures !Invincible(v.invincibleFor) && v.hp >= HitDamage ==> o.hp == v.hp - HitDamage
    ensures !Invincible(v.invincibleFor) && v.hp < HitDamage ==> o.hp == 0
  {
    if Invincible(v.invincibleFor) then v
    else Vitals(if v.hp - HitDamage > 0 then v.hp - HitDamage else 0, InvincibleWindow)
  }

  /** Whether `_apply_damage` switches the game to game-over: the hit lands
      and leaves no HP. */
  predicate Defeats(v: Vitals) {
    !Invincible(v.invincibleFor) && Damage(v).hp <= 0
  }

  lemma DefeatsExactlyAtZero(v: Vitals)
    requires v.hp >= 0
    ensures Defeats(v) <==> !Invincible(v.invincibleFor) && Damage(v).hp == 0
  {
  }

  /** One simulated frame as the combat model sees it: its `dt` and whether
      the player touches a hazard after moving. */
  datatype Contact = Contact(dt: real, touching: bool)

  /** The vitals after one frame of `Game.update`: the timer ticks, then a
      touching hazard applies damage once. */
  function Frame(v: Vitals, c: Contact): (o: Vitals)
    ensures v.hp >= 0 ==> 0 <= o.hp <= v.hp
    ensures !c.touching || Invincible(Tick(v.invincibleFor, c.dt)) ==> o.hp == v.hp && o.invincibleFor == Tick(v.invincibleFor, c.dt)
    ensures c.touching && !Invincible(Tick(v.invincibleFor, c.dt)) ==>
      o.invincibleFor == InvincibleWindow && o.hp == (if v.hp > HitDamage then v.hp - HitDamage else 0)
  {
    var ticked := Vitals(v.hp, Tick(v.invincibleFor, c.dt));
    if c.touching then Damage(ticked) else ticked
  }

  /** The vitals after a run of frames, none of which ends the game. */
  function Replay(v: Vitals, frames: seq<Contact>): Vitals
    decreases |frames|
  {
    if frames == [] then v else Replay(Frame(v, frames[0]), frames[1..])
  }

  /** The simulated time a run of frames takes. */
  function Elapsed(frames: seq<Contact>): real
    decreases |frames|
  {
    if frames == [] then 0.0 else frames[0].dt + Elapsed(frames[1..])
  }

  predicate Forward(frames: seq<Contact>) {
    forall i :: 0 <= i < |frames| ==> frames[i].dt >= 0.0
  }

  lemma {:induction false} ElapsedNonNegative(frames: seq<Contact>)
    requires Forward(frames)
    ensures Elapsed(frames) >= 0.0
  {
    if frames != [] {
      assert Forward(frames[1..]) by {
        forall i | 0 <= i < |frames[1..]| ensures frames[1..][i].dt >= 0.0 {
          assert frames[1..][i] == frames[i + 1];
        }
      }
      ElapsedNonNegative(frames[1..]);
    }
  }

  /** The invincibility window: while less simulated time has passed than
      the window has left, no HP is lost, however many of those frames touch
      a hazard, and the window shrinks by exactly the time passed. */
  lemma {:induction false} NoLossWithinWindow(v: Vitals, frames: seq<Contact>)
    requires Forward(frames)
    requires Elapsed(frames) < v.invincibleFor
    ensures Replay(v, frames).hp == v.hp
    ensures Replay(v, frames).invincibleFor == v.invincibleFor - Elapsed(frames)
    decreases |frames|
  {
    if frames != [] {
      var rest := frames[1..];
      assert Forward(rest) by {
        forall i | 0 <= i < |rest| ensures rest[i].dt >= 0.0 {
          assert rest[i] == frames[i + 1];
        }
      }
      ElapsedNonNegative(rest);
      var next := Frame(v, frames[0]);
      assert next == Vitals(v.hp, v.invincibleFor - frames[0].dt);
      NoLossWithinWindow(next, rest);
    }
  }

  /** A hit opens a window in which at least 0.65 s of continuous contact
      costs nothing more. */
  lemma HitThenWindow(v: Vitals, frames: seq<Contact>)
    requires !Invincible(v.invincibleFor)
    requires Forward(frames) && Elapsed(frames) < InvincibleWindow
    ensures Replay(Damage(v), frames).hp == Damage(v).hp
  {
    NoLossWithinWindow(Damage(v), frames);
  }

  /** Frames that each touch a hazard and each last at least the whole
      window: every one of them lands a hit. */
  predicate Spaced(frames: seq<Contact>) {
    forall i :: 0 <= i < |frames| ==> frames[i].touching && frames[i].dt >= InvincibleWindow
  }

  /** Hits spaced by at least the window each cost 20 HP, floored at 0. */
  lemma {:induction false} SpacedHits(v: Vitals, frames: seq<Contact>)
    requires v.hp >= 0 && 0.0 <= v.invincibleFor <= InvincibleWindow
    requires Spaced(frames)
    ensures Replay(v, frames).hp == if v.hp - HitDamage * |frames| > 0 then v.hp - HitDamage * |frames| else 0
    ensures frames != [] ==> Replay(v, frames).invincibleFor == InvincibleWindow
    decreases |frames|
  {
    if frames != [] {
      var rest := frames[1..];
      assert Spaced(rest) by {
        forall i | 0 <= i < |rest| ensures rest[i].touching && rest[i].dt >= InvincibleWindow {
          assert rest[i] == frames[i + 1];
        }
      }
      var next := Frame(v, frames[0]);
      assert next.invincibleFor == InvincibleWindow;
      assert next.hp == if v.hp - HitDamage > 0 then v.hp - HitDamage else 0;
      SpacedHits(next, rest);
      assert Replay(v, frames) == Replay(next, rest);
      assert HitDamage * |frames| == HitDamage * |rest| + HitDamage;
    }
  }

  /** Five hits spaced by the window take a full-health player through
      100, 80, 60, 40, 20 to 0: only the fifth leaves no HP. */
  lemma FiveSpacedHitsDefeat(frames: seq<Contact>)
    requires |frames| == 5 && Spaced(frames)
    ensures forall n :: 0 <= n <= 5 ==> Replay(Vitals(MaxHp, 0.0), frames[..n]).hp == MaxHp - HitDamage * n
  {
    forall n | 0 <= n <= 5
      ensures Replay(Vitals(MaxHp, 0.0), frames[..n]).hp == MaxHp - HitDamage * n
    {
      assert Spaced(frames[..n]) by {
        forall i | 0 <= i < n ensures frames[..n][i].touching && frames[..n][i].dt >= InvincibleWindow {
          assert frames[..n][i] == frames[i];
        }
      }
      SpacedHits(Vitals(MaxHp, 0.0), frames[..n]);
    }
  }

  /** The three colours of the HP bar. */
  datatype HpBand = HpOk | HpWarn | HpBad

  /** `Game._hp_color`, with the two thresholds on `hp / max_hp` compared
      exactly in integers. */
  function BandOf(hp: int, maxHp: int): (b: HpBand)
    requires maxHp > 0
    ensures b == HpBad <==> (hp as real) / (maxHp as real) <= 0.30
    ensures b == HpWarn <==> 0.30 < (hp as real) / (maxHp as real) <= 0.60
    ensures b == HpOk <==> 0.60 < (hp as real) / (maxHp as real)
  {
    RatioAtMost(hp, maxHp, 30);
    RatioAtMost(hp, maxHp, 60);
    if hp * 100 <= 30 * maxHp then HpBad
    else if hp * 100 <= 60 * maxHp then HpWarn
    else HpOk
  }

  lemma RatioAtMost(hp: int, maxHp: int, percent: int)
    requires maxHp > 0
    ensures (hp as real) / (maxHp as real) <= (percent as real) / 100.0 <==> hp * 100 <= percent * maxHp
  {
    var q := (hp as real) / (maxHp as real);
    assert q * (maxHp as real) == hp as real;
    if q <= (percent as real) / 100.0 {
      assert q * (maxHp as real) <= (percent as real) / 100.0 * (maxHp as real);
    } else {
      assert q * (maxHp as real) > (percent as real) / 100.0 * (maxHp as real);
    }
  }
}
