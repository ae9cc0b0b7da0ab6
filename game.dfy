/** The `Player` sprite and the `Game` object of the HUD-states example: the
    per-frame simulation, state by state. Drawing, fonts and the window are
    not part of this model. */
module HudGame {
  import opened Geometry
  import opened Arena
  import opened Combat
  import opened Spawner
  import opened Movement
  import opened Modes

  /** Side of the player's square sprite. */
  const PlayerSize: nat := 34
  /** Points per collected coin. */
  const CoinValue: int := 10
  const CoinsPerLevel: nat := 7
  const HazardsPerLevel: nat := 2

  /** The game invariant: the fixed walls, a 34×34 player whose rectangle
      sits where its position rounds to, HP in range, a score made of whole
      coins, a live player while playing or paused, and coins and hazards
      where the spawner can put them, with the coins pairwise apart and off
      the player. */
  ghost predicate Sound(mode: Mode, score: int, walls: seq<Rect>, coins: seq<Rect>, hazards: seq<Rect>,
                        body: Body, v: Vitals, speed: real, maxHp: int)
  {
    walls == LevelWalls() &&
    body.rect.w == PlayerSize && body.rect.h == PlayerSize && Synced(body) &&
    speed == 320.0 && maxHp == MaxHp &&
    0 <= v.hp <= MaxHp && v.invincibleFor >= 0.0 &&
    score >= 0 && score % CoinValue == 0 &&
    ((mode == Play || mode == Pause) ==> v.hp > 0) &&
    Disjoint(coins) &&
    AllPlaced(CoinKind, walls, body.rect, coins) &&
    AllSettled(HazardKind, walls, hazards)
  }

  /** `coinRun` and `hazardRun` are the spawn calls of a level laid out
      from draw `start`: seven coin spawn calls on an empty coin group, then,
      from where they stopped, two hazard spawn calls on an empty hazard
      group; they leave `coins`, `hazards` and the cursor `next`. */
  ghost predicate LevelRuns(rng: nat -> int, start: nat, walls: seq<Rect>, player: Rect, coinRun: Run, hazardRun: Run,
                            coins: seq<Rect>, hazards: seq<Rect>, next: nat)
  {
    RunFrom(rng, start, CoinKind, walls, [], player, coinRun) && |coinRun.calls| == CoinsPerLevel &&
    RunFrom(rng, coinRun.cursors[CoinsPerLevel], HazardKind, walls, [], player, hazardRun) &&
    |hazardRun.calls| == HazardsPerLevel &&
    coins == coinRun.groups[CoinsPerLevel] && hazards == hazardRun.groups[HazardsPerLevel] &&
    next == hazardRun.cursors[HazardsPerLevel]
  }

  /** The coins, hazards and cursor some run of the level's spawn calls
      from draw `start` leaves. */
  ghost predicate LaidOutFrom(rng: nat -> int, start: nat, walls: seq<Rect>, player: Rect,
                              coins: seq<Rect>, hazards: seq<Rect>, next: nat)
  {
    exists coinRun: Run, hazardRun: Run :: LevelRuns(rng, start, walls, player, coinRun, hazardRun, coins, hazards, next)
  }

  /** A laid-out level is the one the reference definitions give: the coins
      of seven `SpawnOne` calls in a row from `start`, then the hazards of two
      more. */
  lemma LaidOutFromIsSpawnTimes(rng: nat -> int, start: nat, walls: seq<Rect>, player: Rect,
                                coins: seq<Rect>, hazards: seq<Rect>, next: nat)
    requires LaidOutFrom(rng, start, walls, player, coins, hazards, next)
    ensures var c := SpawnTimes(rng, start, CoinKind, walls, [], player, CoinsPerLevel);
      var h := SpawnTimes(rng, c.next, HazardKind, walls, [], player, HazardsPerLevel);
      coins == c.added && hazards == h.added && next == h.next
  {
    var coinRun: Run, hazardRun: Run :| LevelRuns(rng, start, walls, player, coinRun, hazardRun, coins, hazards, next);
    RunIsSpawnTimes(rng, start, CoinKind, walls, [], player, coinRun);
    RunIsSpawnTimes(rng, coinRun.cursors[CoinsPerLevel], HazardKind, walls, [], player, hazardRun);
    assert [] + coins == coins && [] + hazards == hazards;
  }

  /** Adding whole coins to a score of whole coins keeps it one. */
  lemma WholeCoins(score: int, n: nat)
    requires score >= 0 && score % CoinValue == 0
    ensures score + CoinValue * n >= 0 && (score + CoinValue * n) % CoinValue == 0
  {
  }

  /** A frame's moves and timer tick keep the invariant of the play state,
      with the coins set aside: the player may now overlap some of them, but
      they stay pairwise apart and where the spawner put them. */
  lemma MoveKeepsSound(score: int, walls: seq<Rect>, coins: seq<Rect>, hazards: seq<Rect>, body: Body, v: Vitals,
                       speed: real, maxHp: int, vx: real, vy: real, dt: real)
    requires Sound(Play, score, walls, coins, hazards, body, v, speed, maxHp)
    ensures Sound(Play, score, walls, [], hazards, Travel(body, vx, vy, dt, walls),
                  Vitals(v.hp, Tick(v.invincibleFor, dt)), speed, maxHp)
    ensures Disjoint(coins) && AllSettled(CoinKind, walls, coins)
  {
    TravelKeepsSynced(body, vx, vy, dt, walls);
  }

  class Player {
    var rect: Rect
    /** `pos`, the float position the rectangle is rounded from. */
    var x: real
    var y: real
    /** `vel`, the velocity of the last simulated frame. */
    var vx: real
    var vy: real
    var hp: int
    var invincibleFor: real
    const speed: real
    const maxHp: int

    /** A full-health player at rest whose 34×34 rectangle is centred on
        `(cx, cy)`. */
    constructor (cx: int, cy: int)
      ensures StartsAt(cx, cy)
    {
      var r := AtCenter(cx, cy, PlayerSize, PlayerSize);
      rect := r;
      x := r.CenterX() as real;
      y := r.CenterY() as real;
      vx := 0.0;
      vy := 0.0;
      speed := 320.0;
      maxHp := MaxHp;
      hp := MaxHp;
      invincibleFor := 0.0;
    }

    /** The state of a new player centred on `(cx, cy)`: full HP, no
        invincibility, at rest, with its position on the rectangle's centre. */
    ghost predicate StartsAt(cx: int, cy: int)
      reads this
    {
      rect == AtCenter(cx, cy, PlayerSize, PlayerSize) &&
      x == cx as real && y == cy as real && vx == 0.0 && vy == 0.0 &&
      speed == 320.0 && maxHp == MaxHp && hp == MaxHp && invincibleFor == 0.0
    }

    function Pose(): Body
      reads this
    {
      Body(x, y, rect)
    }

    function Health(): Vitals
      reads this
    {
      Vitals(hp, invincibleFor)
    }

    /** `is_invincible`. */
    function IsInvincible(): (b: bool)
      reads this
      ensures b <==> invincibleFor > 0.0
    {
      Invincible(invincibleFor)
    }

    /** `update(dt)`: count the invincibility window down. */
    method Update(dt: real)
      modifies this`invincibleFor
      ensures invincibleFor == Tick(old(invincibleFor), dt)
    {
      if invincibleFor > 0.0 {
        invincibleFor := if 0.0 < invincibleFor - dt then invincibleFor - dt else 0.0;
      }
    }
  }

  class Game {
    /** The game's random generator `random.Random(6)`, as the stream of
        values its `randint` calls read. */
    const rng: nat -> int
    /** How many values of `rng` have been read so far. */
    var drawn: nat
    var debug: bool
    var state: Mode
    var score: int
    var player: Player
    /** The sprite groups, in insertion order. */
    var walls: seq<Rect>
    var coins: seq<Rect>
    var hazards: seq<Rect>

    /** The invariant every public operation keeps, on the game's current
        values. */
    ghost predicate Valid()
      reads this, player
    {
      Sound(state, score, walls, coins, hazards, player.Pose(), player.Health(), player.speed, player.maxHp)
    }

    /** The spawned part of a level whose spawn calls start reading the
        random stream at draw `start`. */
    ghost predicate LaidOut(start: nat)
      reads this, player
    {
      LaidOutFrom(rng, start, walls, player.rect, coins, hazards, drawn)
    }

    /** What `_reset_level` leaves behind when its spawn calls start at draw
        `start`: score 0, the six walls, a new player at the centre of the
        playfield, and the coins and hazards laid out from `start`. */
    ghost predicate FreshLevel(start: nat)
      reads this, player
    {
      score == 0 && walls == LevelWalls() &&
      player.StartsAt(Playfield.CenterX(), Playfield.CenterY()) &&
      LaidOut(start)
    }

    /** Seven coin spawn calls on an empty group from draw `start`, then two
        hazard spawn calls on an empty group, lay the level out. */
    lemma LaidOutByRuns(start: nat, coinRun: Run, hazardRun: Run)
      requires LevelRuns(rng, start, walls, player.rect, coinRun, hazardRun, coins, hazards, drawn)
      ensures LaidOut(start)
    {
    }

    /** A freshly laid-out level satisfies the invariant, whatever the state:
        its coins are pairwise apart and clear of the walls and the player,
        and its hazards clear of the walls. */
    lemma FreshLevelValid(start: nat)
      requires FreshLevel(start)
      ensures Valid()
      ensures |coins| <= CoinsPerLevel && |hazards| <= HazardsPerLevel
    {
      LaidOutFromIsSpawnTimes(rng, start, walls, player.rect, coins, hazards, drawn);
      var coinRun := SpawnTimes(rng, start, CoinKind, walls, [], player.rect, CoinsPerLevel);
      var hazardRun := SpawnTimes(rng, coinRun.next, HazardKind, walls, [], player.rect, HazardsPerLevel);
      SpawnCoinsKeepApart(rng, start, walls, [], player.rect, CoinsPerLevel);
      assert [] + coinRun.added == coins;
      SpawnHazardsPlaced(rng, coinRun.next, walls, [], player.rect, HazardsPerLevel);
      RoundWhole(Playfield.CenterX());
      RoundWhole(Playfield.CenterY());
    }

    /** `Game()`: title screen, debug off, and a first level. */
    constructor (rng: nat -> int)
      ensures this.rng == rng && state == Title && !debug
      ensures FreshLevel(0) && Valid()
    {
      this.rng := rng;
      drawn := 0;
      debug := false;
      state := Title;
      score := 0;
      player := new Player(Playfield.CenterX(), Playfield.CenterY());
      walls := [];
      coins := [];
      hazards := [];
      new;
      ResetLevel(true);
    }

    /** `_reset_level(keep_state)`. */
    method ResetLevel(keepState: bool)
      modifies this
      ensures fresh(player) && FreshLevel(old(drawn)) && Valid()
      ensures |coins| <= CoinsPerLevel && |hazards| <= HazardsPerLevel
      ensures !CollidesAny(player.rect, walls)
      ensures state == (if keepState then old(state) else Play)
      ensures debug == old(debug)
    {
      ClearLevel();
      SpawnLevel();
      if !keepState {
        state := Play;
      }
    }

    /** The spawning part of `_reset_level`: seven coin spawn calls, then two
        hazard spawn calls, on a cleared level. */
    method SpawnLevel()
      requires score == 0 && walls == LevelWalls() && coins == [] && hazards == []
      requires player.StartsAt(Playfield.CenterX(), Playfield.CenterY())
      modifies this`coins, this`hazards, this`drawn
      ensures FreshLevel(old(drawn)) && Valid()
      ensures |coins| <= CoinsPerLevel && |hazards| <= HazardsPerLevel
    {
      ghost var start := drawn;
      var coinRun := SpawnCoins(CoinsPerLevel);
      var hazardRun := SpawnHazards(HazardsPerLevel);
      LaidOutByRuns(start, coinRun, hazardRun);
      FreshLevelValid(start);
    }

    /** The first part of `_reset_level`: empty groups, score 0, a new
        player at the centre of the playfield, and the six walls, added one
        by one. */
    method ClearLevel()
      modifies this
      ensures fresh(player) && player.StartsAt(Playfield.CenterX(), Playfield.CenterY())
      ensures walls == LevelWalls() && coins == [] && hazards == [] && score == 0
      ensures !CollidesAny(player.rect, walls)
      ensures drawn == old(drawn) && state == old(state) && debug == old(debug)
    {
      walls := [];
      coins := [];
      hazards := [];
      score := 0;
      player := new Player(Playfield.CenterX(), Playfield.CenterY());
      var t := WallThickness;
      var p := Playfield;
      walls := walls + [Rect(p.left, p.top, p.w, t)];
      walls := walls + [Rect(p.left, p.Bottom() - t, p.w, t)];
      walls := walls + [Rect(p.left, p.top, t, p.h)];
      walls := walls + [Rect(p.Right() - t, p.top, t, p.h)];
      walls := walls + [Rect(p.left + 260, p.top + 80, 18, 220)];
      walls := walls + [Rect(p.left + 520, p.top + 200, 260, 18)];
      assert walls == LevelWalls();
      CentreClearOfWalls(PlayerSize, PlayerSize);
    }

    /** `_spawn_coin`: up to 200 candidates, each drawn inside the coin box
        and kept only when it touches no wall, no coin and not the player.
        `s` is the call's outcome: the coin placed, if any, and how many
        candidates were drawn. */
    method SpawnCoin() returns (ghost s: Spawn)
      modifies this`coins, this`drawn
      ensures Outcome(rng, old(drawn), CoinKind, walls, old(coins), player.rect, s)
      ensures coins == old(coins) + s.Added() && drawn == old(drawn) + 2 * s.tries
    {
      ghost var start := drawn;
      var attempt := 0;
      while attempt < Attempts
        invariant 0 <= attempt <= Attempts && drawn == start + 2 * attempt && coins == old(coins)
        invariant forall j :: 0 <= j < attempt ==> Rejected(CoinKind, walls, coins, player.rect, Attempt(rng, start, j, CoinKind))
      {
        var box := BoxOf(CoinKind);
        var cx := RandInt(rng, drawn, box.xlo, box.xhi);
        drawn := drawn + 1;
        var cy := RandInt(rng, drawn, box.ylo, box.yhi);
        drawn := drawn + 1;
        var coin := AtCenter(cx, cy, Size(CoinKind), Size(CoinKind));
        AttemptDrawn(rng, start, attempt, CoinKind, cx, cy);
        attempt := attempt + 1;
        if CollidesAny(coin, walls) {
          continue;
        }
        if CollidesAny(coin, coins) {
          continue;
        }
        if Collide(coin, player.rect) {
          continue;
        }
        coins := coins + [coin];
        return Spawn(Some(coin), attempt);
      }
      return Spawn(None, attempt);
    }

    /** `n` calls of `_spawn_coin` in a row, as `_reset_level` and `update`
        make them; `r` records them call by call. */
    method SpawnCoins(n: nat) returns (ghost r: Run)
      modifies this`coins, this`drawn
      ensures RunFrom(rng, old(drawn), CoinKind, walls, old(coins), player.rect, r) && |r.calls| == n
      ensures coins == r.groups[n] && drawn == r.cursors[n]
    {
      r := NoRun(drawn, coins);
      var i := 0;
      while i < n
        invariant 0 <= i <= n && |r.calls| == i
        invariant RunFrom(rng, old(drawn), CoinKind, walls, old(coins), player.rect, r)
        invariant coins == r.groups[i] && drawn == r.cursors[i]
      {
        var s := SpawnCoin();
        ExtendRun(rng, old(drawn), CoinKind, walls, old(coins), player.rect, r, s);
        r := Extend(r, s);
        i := i + 1;
      }
    }

    /** `_spawn_hazard`: up to 200 candidates, each drawn inside the hazard
        box and kept only when it touches no wall and not the player. */
    method SpawnHazard() returns (ghost s: Spawn)
      modifies this`hazards, this`drawn
      ensures Outcome(rng, old(drawn), HazardKind, walls, old(hazards), player.rect, s)
      ensures hazards == old(hazards) + s.Added() && drawn == old(drawn) + 2 * s.tries
    {
      ghost var start := drawn;
      var attempt := 0;
      while attempt < Attempts
        invariant 0 <= attempt <= Attempts && drawn == start + 2 * attempt && hazards == old(hazards)
        invariant forall j :: 0 <= j < attempt ==> Rejected(HazardKind, walls, hazards, player.rect, Attempt(rng, start, j, HazardKind))
      {
        var box := BoxOf(HazardKind);
        var cx := RandInt(rng, drawn, box.xlo, box.xhi);
        drawn := drawn + 1;
        var cy := RandInt(rng, drawn, box.ylo, box.yhi);
        drawn := drawn + 1;
        var hz := AtCenter(cx, cy, Size(HazardKind), Size(HazardKind));
        AttemptDrawn(rng, start, attempt, HazardKind, cx, cy);
        attempt := attempt + 1;
        if CollidesAny(hz, walls) {
          continue;
        }
        if Collide(hz, player.rect) {
          continue;
        }
        hazards := hazards + [hz];
        return Spawn(Some(hz), attempt);
      }
      return Spawn(None, attempt);
    }

    /** `n` calls of `_spawn_hazard` in a row. */
    method SpawnHazards(n: nat) returns (ghost r: Run)
      modifies this`hazards, this`drawn
      ensures RunFrom(rng, old(drawn), HazardKind, walls, old(hazards), player.rect, r) && |r.calls| == n
      ensures hazards == r.groups[n] && drawn == r.cursors[n]
    {
      r := NoRun(drawn, hazards);
      var i := 0;
      while i < n
        invariant 0 <= i <= n && |r.calls| == i
        invariant RunFrom(rng, old(drawn), HazardKind, walls, old(hazards), player.rect, r)
        invariant hazards == r.groups[i] && drawn == r.cursors[i]
      {
        var s := SpawnHazard();
        ExtendRun(rng, old(drawn), HazardKind, walls, old(hazards), player.rect, r, s);
        r := Extend(r, s);
        i := i + 1;
      }
    }

    /** `_move_player_axis(axis, amount)`: move the position, re-centre the
        rectangle on it, then resolve against every wall now overlapped, in
        the group's order. */
    method MovePlayerAxis(axis: Axis, amount: real)
      modifies player`x, player`y, player`rect
      ensures player.Pose() == MoveAxis(old(player.Pose()), axis, amount, walls)
    {
      ghost var b := player.Pose();
      if axis == X {
        player.x := player.x + amount;
        player.rect := WithCenterX(player.rect, Round(player.x));
      } else {
        player.y := player.y + amount;
        player.rect := WithCenterY(player.rect, Round(player.y));
      }
      ghost var moved := player.rect;
      assert moved == Recenter(b.rect, axis, Coord(b, axis) + amount);
      assert player.Pose() == WithCoord(b, axis, Coord(b, axis) + amount, moved);
      var hits := Hits(player.rect, walls);
      if hits == [] {
        assert player.Pose() == MoveAxis(b, axis, amount, walls);
        return;
      }
      ghost var before := player.Pose();
      ResolveHits(axis, amount, hits);
      assert player.Pose() == WithCoord(before, axis, Center(player.rect, axis) as real, player.rect);
    }

    /** The loop of `_move_player_axis` over the walls `hits` the moved
        rectangle overlaps: each one sets the leading or trailing edge, and
        the position follows the rectangle's centre. */
    method ResolveHits(axis: Axis, amount: real, hits: seq<Rect>)
      requires hits != []
      modifies player`x, player`y, player`rect
      ensures player.rect == SnapAll(old(player.rect), axis, amount, hits)
      ensures player.Pose() == WithCoord(old(player.Pose()), axis, Center(player.rect, axis) as real, player.rect)
    {
      ghost var b := player.Pose();
      for i := 0 to |hits|
        invariant player.rect == SnapAll(b.rect, axis, amount, hits[..i])
        invariant axis == X ==> player.y == b.y && (i > 0 ==> player.x == player.rect.CenterX() as real)
        invariant axis == Y ==> player.x == b.x && (i > 0 ==> player.y == player.rect.CenterY() as real)
      {
        var wall := hits[i];
        assert hits[..i + 1][..i] == hits[..i];
        if axis == X {
          if amount > 0.0 {
            player.rect := WithRight(player.rect, wall.left);
          } else if amount < 0.0 {
            player.rect := player.rect.(left := wall.Right());
          }
          player.x := player.rect.CenterX() as real;
        } else {
          if amount > 0.0 {
            player.rect := WithBottom(player.rect, wall.top);
          } else if amount < 0.0 {
            player.rect := player.rect.(top := wall.Bottom());
          }
          player.y := player.rect.CenterY() as real;
        }
      }
      assert hits[..|hits|] == hits;
    }

    /** `_apply_damage(source_rect)`: nothing while invincible; otherwise 20
        HP are lost (never below zero), the invincibility window opens, and a
        player left with no HP ends the game. The rectangle of the hazard is
        not used. */
    method ApplyDamage(source: Rect)
      modifies player`hp, player`invincibleFor, this`state
      ensures player.Health() == Damage(old(player.Health()))
      ensures state == (if Defeats(old(player.Health())) then GameOver else old(state))
    {
      if player.IsInvincible() {
        return;
      }
      player.hp := if 0 < player.hp - HitDamage then player.hp - HitDamage else 0;
      player.invincibleFor := InvincibleWindow;
      if player.hp <= 0 {
        state := GameOver;
      }
    }

    /** `handle_event(event)`, branch by branch as `Dispatch` lists them.
        Escape posts a QUIT event, which is returned here as `quit`. */
    method HandleEvent(ev: Event) returns (quit: bool)
      requires Valid()
      modifies this
      ensures Valid()
      ensures quit <==> Dispatch(old(state), ev) == PostQuit
      ensures state == NextMode(old(state), ev)
      ensures debug == (if Dispatch(old(state), ev) == ToggleDebug then !old(debug) else old(debug))
      ensures ResetsLevel(old(state), ev) ==> fresh(player) && FreshLevel(old(drawn))
      ensures !ResetsLevel(old(state), ev) ==>
        player == old(player) && score == old(score) && drawn == old(drawn) &&
        walls == old(walls) && coins == old(coins) && hazards == old(hazards)
    {
      quit := false;
      if !ev.KeyDown? {
        return;
      }
      if ev.key == Escape {
        quit := true;
        return;
      }
      if ev.key == F1 {
        debug := !debug;
        return;
      }
      if ev.key == KeyR {
        ResetLevel(true);
        return;
      }
      if state == Play && ev.key == KeyP {
        state := Pause;
        return;
      }
      if state == Pause && ev.key == KeyP {
        state := Play;
        return;
      }
      if (state == Title || state == GameOver) && ev.key == Space {
        ResetLevel(true);
        state := Play;
      }
    }

    /** `update(dt)`, with `_read_move()`'s vector passed in as
        `(moveX, moveY)`. Outside the play state nothing changes. While
        playing, the player moves along x then y, its invincibility ticks,
        every coin its new rectangle overlaps is collected for 10 points and
        replaced by one spawn call, and a touching hazard applies damage
        once. */
    method Update(dt: real, moveX: real, moveY: real)
      requires Valid()
      modifies this, player
      ensures Valid()
      ensures old(state) != Play ==> unchanged(this) && unchanged(player)
      ensures old(state) == Play ==>
        player == old(player) && debug == old(debug) && walls == old(walls) && hazards == old(hazards) &&
        player.vx == Velocity(moveX, player.speed) && player.vy == Velocity(moveY, player.speed) &&
        player.Pose() == Travel(old(player.Pose()), player.vx, player.vy, dt, walls)
      ensures old(state) == Play ==>
        var got := Hits(player.rect, old(coins));
        score == old(score) + CoinValue * |got| &&
        RunLeaves(rng, old(drawn), CoinKind, walls, Survivors(player.rect, old(coins)), player.rect, |got|, coins, drawn)
      ensures old(state) == Play ==>
        var ticked := Vitals(old(player.hp), Tick(old(player.invincibleFor), dt));
        var touching := CollidesAny(player.rect, hazards);
        player.Health() == Frame(old(player.Health()), Contact(dt, touching)) &&
        state == (if touching && Defeats(ticked) then GameOver else Play)
    {
      if state != Play {
        return;
      }
      PlayFrame(dt, moveX, moveY);
    }

    /** The body of `update` in the play state. */
    method PlayFrame(dt: real, moveX: real, moveY: real)
      requires Valid() && state == Play
      modifies player`vx, player`vy, player`x, player`y, player`rect, player`hp, player`invincibleFor
      modifies this`coins, this`drawn, this`score, this`state
      ensures Valid()
      ensures player.vx == Velocity(moveX, player.speed) && player.vy == Velocity(moveY, player.speed)
      ensures player.Pose() == Travel(old(player.Pose()), player.vx, player.vy, dt, walls)
      ensures var got := Hits(player.rect, old(coins));
        score == old(score) + CoinValue * |got| &&
        RunLeaves(rng, old(drawn), CoinKind, walls, Survivors(player.rect, old(coins)), player.rect, |got|, coins, drawn)
      ensures var ticked := Vitals(old(player.hp), Tick(old(player.invincibleFor), dt));
        var touching := CollidesAny(player.rect, hazards);
        player.Health() == Frame(old(player.Health()), Contact(dt, touching)) &&
        state == (if touching && Defeats(ticked) then GameOver else Play)
    {
      ghost var body := player.Pose();
      ghost var vitals := player.Health();
      MovePlayer(dt, moveX, moveY);
      MoveKeepsSound(score, walls, coins, hazards, body, vitals, player.speed, player.maxHp, player.vx, player.vy, dt);
      Interact();
    }

    /** The invariant between the moves and the collisions of a frame in
        the play state: `Sound` with the coins set aside, since the player
        may now overlap some, and the coins still pairwise apart and where
        the spawner put them. */
    ghost predicate Moved()
      reads this, player
    {
      state == Play && player.hp > 0 &&
      Sound(state, score, walls, [], hazards, player.Pose(), player.Health(), player.speed, player.maxHp) &&
      Disjoint(coins) && AllSettled(CoinKind, walls, coins)
    }

    /** The collision part of `update`: coins first, then hazards. */
    method Interact()
      requires Moved()
      modifies player`hp, player`invincibleFor, this`coins, this`drawn, this`score, this`state
      ensures Valid()
      ensures var got := Hits(player.rect, old(coins));
        score == old(score) + CoinValue * |got| &&
        RunLeaves(rng, old(drawn), CoinKind, walls, Survivors(player.rect, old(coins)), player.rect, |got|, coins, drawn)
      ensures var touching := CollidesAny(player.rect, hazards);
        player.Health() == (if touching then Damage(old(player.Health())) else old(player.Health())) &&
        state == (if touching && Defeats(old(player.Health())) then GameOver else Play)
    {
      CollectCoins();
      TouchHazards();
    }

    /** The moving part of `update`: the velocity from the input, the x move,
        the y move, then the player's own `update`. */
    method MovePlayer(dt: real, moveX: real, moveY: real)
      modifies player`vx, player`vy, player`x, player`y, player`rect, player`invincibleFor
      ensures player.vx == Velocity(moveX, player.speed) && player.vy == Velocity(moveY, player.speed)
      ensures player.Pose() == Travel(old(player.Pose()), player.vx, player.vy, dt, walls)
      ensures player.invincibleFor == Tick(old(player.invincibleFor), dt)
    {
      player.vx := Velocity(moveX, player.speed);
      player.vy := Velocity(moveY, player.speed);
      MovePlayerAxis(X, Displacement(player.vx, dt));
      MovePlayerAxis(Y, Displacement(player.vy, dt));
      player.Update(dt);
    }

    /** The coin part of `update`: the overlapped coins leave the group,
        and, if there were any, the score grows by 10 per coin and one spawn
        call is made per coin. */
    method CollectCoins()
      requires score >= 0 && score % CoinValue == 0
      requires Disjoint(coins) && AllSettled(CoinKind, walls, coins)
      modifies this`coins, this`drawn, this`score
      ensures score == old(score) + CoinValue * |Hits(player.rect, old(coins))|
      ensures RunLeaves(rng, old(drawn), CoinKind, walls, Survivors(player.rect, old(coins)),
                        player.rect, |Hits(player.rect, old(coins))|, coins, drawn)
      ensures score >= 0 && score % CoinValue == 0
      ensures Disjoint(coins) && AllPlaced(CoinKind, walls, player.rect, coins)
    {
      ghost var start := drawn;
      ghost var before := coins;
      var got := Hits(player.rect, coins);
      coins := Survivors(player.rect, coins);
      ghost var r := NoRun(drawn, coins);
      if got != [] {
        WholeCoins(score, |got|);
        score := score + CoinValue * |got|;
        r := SpawnCoins(|got|);
      }
      assert RunFrom(rng, start, CoinKind, walls, Survivors(player.rect, before), player.rect, r);
      RespawnKeepsApart(rng, start, walls, before, player.rect, |got|, coins, drawn);
    }

    /** The hazard part of `update`: when the player overlaps a hazard, the
        first one found applies damage. */
    method TouchHazards()
      requires 0 < player.hp <= MaxHp && player.invincibleFor >= 0.0
      modifies player`hp, player`invincibleFor, this`state
      ensures 0 <= player.hp <= MaxHp && player.invincibleFor >= 0.0
      ensures old(state) == Play ==> (state == Play || state == Pause ==> player.hp > 0)
      ensures var touching := CollidesAny(player.rect, hazards);
        player.Health() == (if touching then Damage(old(player.Health())) else old(player.Health())) &&
        state == (if touching && Defeats(old(player.Health())) then GameOver else old(state))
    {
      var hit := Hits(player.rect, hazards);
      if hit != [] {
        ApplyDamage(hit[0]);
      }
    }

    /** `_hp_color`: the colour band of the HP bar, by the share of the
        maximum HP left. Since `hp / max_hp` is compared with 0.30 and 0.60,
        the bands are, in whole numbers, at most 30 %, at most 60 %, and
        above. */
    function HpColor(): (b: HpBand)
      reads this, player
      requires player.maxHp > 0
      ensures b == HpBad <==> player.hp * 100 <= 30 * player.maxHp
      ensures b == HpWarn <==> 30 * player.maxHp < player.hp * 100 <= 60 * player.maxHp
      ensures b == HpOk <==> 60 * player.maxHp < player.hp * 100
    {
      RatioAtMost(player.hp, player.maxHp, 30);
      RatioAtMost(player.hp, player.maxHp, 60);
      BandOf(player.hp, player.maxHp)
    }
  }
}
