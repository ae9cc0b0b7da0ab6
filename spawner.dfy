/** The bounded rejection-sampling spawner behind `Game._spawn_coin` and
    `Game._spawn_hazard`.

    The game's random generator is a stream `rng` of integers, read from a
    cursor: `randint(lo, hi)` reads one of them and brings it into
    `[lo, hi]`. Every sequence of in-range draws arises from some stream. */
module Spawner {
  import opened Geometry
  import opened Arena

  datatype Option<T> = None | Some(value: T)

  /** Candidates tried by one spawn call before it gives up. */
  const Attempts: nat := 200

  /** The two kinds of spawned sprite. */
  datatype Kind = CoinKind | HazardKind

  /** Side of the square sprite: `Coin` is 22×22, `Hazard` 32×32. */
  function Size(kind: Kind): nat {
    match kind
    case CoinKind => 22
    case HazardKind => 32
  }

  /** How far inside the playfield's edges a candidate centre is drawn. */
  function Margin(kind: Kind): int {
    match kind
    case CoinKind => 40
    case HazardKind => 60
  }

  /** The inclusive ranges `randint` draws a candidate centre from. */
  datatype Box = Box(xlo: int, xhi: int, ylo: int, yhi: int) {
    predicate NonEmpty() { xlo <= xhi && ylo <= yhi }
    predicate HoldsCenterOf(r: Rect) {
      xlo <= r.CenterX() <= xhi && ylo <= r.CenterY() <= yhi
    }
  }

  /** The box a candidate centre of `kind` is drawn from: the playfield
      inset by the kind's margin on every side. */
  function BoxOf(kind: Kind): (b: Box)
    ensures b.xlo == Playfield.left + Margin(kind) && b.xhi == Playfield.Right() - Margin(kind)
    ensures b.ylo == Playfield.top + Margin(kind) && b.yhi == Playfield.Bottom() - Margin(kind)
    ensures b.NonEmpty()
  {
    var m := Margin(kind);
    Box(Playfield.left + m, Playfield.Right() - m, Playfield.top + m, Playfield.Bottom() - m)
  }

  /** `rng.randint(lo, hi)` reading draw number `k` of the stream. */
  function RandInt(rng: nat -> int, k: nat, lo: int, hi: int): (v: int)
    requires lo <= hi
    ensures lo <= v <= hi
  {
    lo + rng(k) % (hi - lo + 1)
  }

  /** The candidate of `kind` whose centre reads draws `k` (x) and
      `k + 1` (y). */
  function Candidate(rng: nat -> int, k: nat, kind: Kind): (c: Rect)
    ensures c.w == Size(kind) && c.h == Size(kind) && BoxOf(kind).HoldsCenterOf(c)
  {
    var box := BoxOf(kind);
    AtCenter(RandInt(rng, k, box.xlo, box.xhi), RandInt(rng, k + 1, box.ylo, box.yhi), Size(kind), Size(kind))
  }

  /** The candidate of attempt number `i` of a call that starts at draw `k`:
      each attempt reads two draws. */
  function Attempt(rng: nat -> int, k: nat, i: nat, kind: Kind): (c: Rect)
    ensures c.w == Size(kind) && c.h == Size(kind) && BoxOf(kind).HoldsCenterOf(c)
    decreases i
  {
    if i == 0 then Candidate(rng, k, kind) else Attempt(rng, k + 2, i - 1, kind)
  }

  lemma {:induction false} AttemptReads(rng: nat -> int, k: nat, i: nat, kind: Kind)
    ensures Attempt(rng, k, i, kind) == Candidate(rng, k + 2 * i, kind)
    decreases i
  {
    if i > 0 {
      AttemptReads(rng, k + 2, i - 1, kind);
    }
  }

  /** The three checks of the retry loop, in the source's order: a candidate
      is rejected when it touches a wall, (for a coin) a coin already placed,
      or the player. Hazards are not checked against each other. */
  predicate Rejected(kind: Kind, walls: seq<Rect>, group: seq<Rect>, player: Rect, c: Rect): (r: bool)
    ensures kind == HazardKind ==> (r <==> CollidesAny(c, walls) || Collide(c, player))
    ensures !r ==> !CollidesAny(c, walls) && !Collide(c, player)
    ensures kind == CoinKind && !r ==> forall x :: x in group ==> !Collide(c, x)
  {
    CollidesAny(c, walls) || (kind == CoinKind && CollidesAny(c, group)) || Collide(c, player)
  }

  /** The outcome of one spawn call: the accepted rectangle, if any, and the
      number of candidates it drew. */
  datatype Spawn = Spawn(placed: Option<Rect>, tries: nat) {
    /** How many candidates the call turned down. */
    function TurnedDown(): nat {
      if placed.Some? && tries > 0 then tries - 1 else tries
    }
    /** What the call adds to its sprite group. */
    function Added(): seq<Rect> {
      if placed.Some? then [placed.value] else []
    }
  }

  /** The retry loop of `_spawn_coin` / `_spawn_hazard`, with the cursor at
      draw `k`: a new attempt is made while its two draws come before draw
      `end`. */
  function Search(rng: nat -> int, k: nat, end: nat, kind: Kind, walls: seq<Rect>, group: seq<Rect>, player: Rect): (s: Spawn)
    requires k <= end
    ensures k + 2 * s.tries <= end
    ensures s.placed.None? ==> end < k + 2 * s.tries + 2
    ensures s.placed.Some? ==> 1 <= s.tries
    decreases end - k
  {
    if end < k + 2 then Spawn(None, 0)
    else
      var c := Candidate(rng, k, kind);
      if !Rejected(kind, walls, group, player, c) then Spawn(Some(c), 1)
      else
        var s := Search(rng, k + 2, end, kind, walls, group, player);
        Spawn(s.placed, s.tries + 1)
  }

  /** The search accepts the first attempt that passes the checks, and every
      attempt before it failed them: what it places is the candidate of its
      last attempt. */
  lemma {:induction false} SearchFindsFirstClear(rng: nat -> int, k: nat, end: nat, kind: Kind, walls: seq<Rect>, group: seq<Rect>, player: Rect)
    requires k <= end
    ensures var s := Search(rng, k, end, kind, walls, group, player);
      (s.placed.Some? ==>
         s.placed.value == Attempt(rng, k, s.tries - 1, kind) &&
         !Rejected(kind, walls, group, player, s.placed.value)) &&
      (forall i :: 0 <= i < s.TurnedDown() ==>
         Rejected(kind, walls, group, player, Attempt(rng, k, i, kind)))
    decreases end - k
  {
    if k + 2 <= end {
      var c := Candidate(rng, k, kind);
      if Rejected(kind, walls, group, player, c) {
        SearchFindsFirstClear(rng, k + 2, end, kind, walls, group, player);
      }
    }
  }

  /** What an accepted sprite of `kind` satisfies when it is placed: its size,
      its centre inside the inset box, and none of the three rejections. */
  predicate Fits(kind: Kind, walls: seq<Rect>, group: seq<Rect>, player: Rect, r: Rect) {
    r.w == Size(kind) && r.h == Size(kind) && BoxOf(kind).HoldsCenterOf(r) &&
    !Rejected(kind, walls, group, player, r)
  }

  /** One call of `_spawn_coin` or `_spawn_hazard`, starting at draw `k`. */
  function SpawnOne(rng: nat -> int, k: nat, kind: Kind, walls: seq<Rect>, group: seq<Rect>, player: Rect): (s: Spawn)
    ensures s.tries <= Attempts
    ensures s.placed.None? ==> s.tries == Attempts
    ensures s.placed.Some? ==> 1 <= s.tries && !Rejected(kind, walls, group, player, s.placed.value)
  {
    SearchFindsFirstClear(rng, k, k + 2 * Attempts, kind, walls, group, player);
    Search(rng, k, k + 2 * Attempts, kind, walls, group, player)
  }

  /** A spawn call adds at most one sprite, draws at most 200 candidates
      (all 200 when it gives up), and whatever it adds fits. */
  lemma SpawnOneSound(rng: nat -> int, k: nat, kind: Kind, walls: seq<Rect>, group: seq<Rect>, player: Rect, s: Spawn)
    requires s == SpawnOne(rng, k, kind, walls, group, player)
    ensures |s.Added()| <= 1 && s.tries <= Attempts
    ensures s.placed.None? ==> s.tries == Attempts && s.Added() == []
    ensures s.placed.Some? ==> Fits(kind, walls, group, player, s.placed.value)
  {
    SearchFindsFirstClear(rng, k, k + 2 * Attempts, kind, walls, group, player);
  }

  /** What a run of spawn calls adds to its group, in order, and where it
      leaves the draw cursor. */
  datatype Batch = Batch(added: seq<Rect>, next: nat)

  /** `n` spawn calls in a row from draw `k`, each one seeing what the
      earlier ones added to `group`. */
  function SpawnTimes(rng: nat -> int, k: nat, kind: Kind, walls: seq<Rect>, group: seq<Rect>, player: Rect, n: nat): (b: Batch)
    ensures |b.added| <= n
    ensures k <= b.next <= k + 2 * Attempts * n
    decreases n, k
  {
    if n == 0 then Batch([], k)
    else
      var b := SpawnTimes(rng, k, kind, walls, group, player, n - 1);
      var s := SpawnOne(rng, b.next, kind, walls, group + b.added, player);
      Batch(b.added + s.Added(), b.next + 2 * s.tries)
  }

  /** One more call after a run of `n`. */
  lemma SpawnTimesStep(rng: nat -> int, k: nat, kind: Kind, walls: seq<Rect>, group: seq<Rect>, player: Rect, n: nat, b: Batch)
    requires b == SpawnTimes(rng, k, kind, walls, group, player, n)
    ensures var s := SpawnOne(rng, b.next, kind, walls, group + b.added, player);
      SpawnTimes(rng, k, kind, walls, group, player, n + 1) == Batch(b.added + s.Added(), b.next + 2 * s.tries)
  {
  }

  /** Each sprite of `added` fitted when it was placed after `before` and the
      sprites ahead of it. */
  predicate AllFit(kind: Kind, walls: seq<Rect>, before: seq<Rect>, player: Rect, added: seq<Rect>) {
    forall i :: 0 <= i < |added| ==> Fits(kind, walls, before + added[..i], player, added[i])
  }

  /** The candidate whose centre `(cx, cy)` the `randint` calls of attempt
      number `i` of a call from draw `k` return. */
  lemma AttemptDrawn(rng: nat -> int, k: nat, i: nat, kind: Kind, cx: int, cy: int)
    requires cx == RandInt(rng, k + 2 * i, BoxOf(kind).xlo, BoxOf(kind).xhi)
    requires cy == RandInt(rng, k + 2 * i + 1, BoxOf(kind).ylo, BoxOf(kind).yhi)
    ensures AtCenter(cx, cy, Size(kind), Size(kind)) == Attempt(rng, k, i, kind)
  {
    AttemptReads(rng, k, i, kind);
  }

  /** What one spawn call from draw `k` does, attempt by attempt: it turns
      down every candidate before its last one, it draws all 200 when it
      places nothing, and what it places is the candidate of its last
      attempt, which passes the checks. */
  predicate Outcome(rng: nat -> int, k: nat, kind: Kind, walls: seq<Rect>, group: seq<Rect>, player: Rect, s: Spawn) {
    s.tries <= Attempts &&
    (forall j :: 0 <= j < s.TurnedDown() ==> Rejected(kind, walls, group, player, Attempt(rng, k, j, kind))) &&
    (s.placed.Some? ==>
       1 <= s.tries && s.placed.value == Attempt(rng, k, s.tries - 1, kind) &&
       !Rejected(kind, walls, group, player, s.placed.value)) &&
    (s.placed.None? ==> s.tries == Attempts)
  }

  /** The retry loop's outcome determines the call: exactly `SpawnOne`
      behaves attempt by attempt as `Outcome` describes. */
  lemma OutcomeIsSpawnOne(rng: nat -> int, k: nat, kind: Kind, walls: seq<Rect>, group: seq<Rect>, player: Rect, s: Spawn)
    ensures Outcome(rng, k, kind, walls, group, player, s) <==> s == SpawnOne(rng, k, kind, walls, group, player)
  {
    var t := SpawnOne(rng, k, kind, walls, group, player);
    SearchFindsFirstClear(rng, k, k + 2 * Attempts, kind, walls, group, player);
    assert Outcome(rng, k, kind, walls, group, player, t);
    if Outcome(rng, k, kind, walls, group, player, s) {
      OutcomeUnique(rng, k, kind, walls, group, player, s, t);
    }
  }

  /** Two runs of the retry loop from the same draw agree. */
  lemma OutcomeUnique(rng: nat -> int, k: nat, kind: Kind, walls: seq<Rect>, group: seq<Rect>, player: Rect, s: Spawn, t: Spawn)
    requires Outcome(rng, k, kind, walls, group, player, s)
    requires Outcome(rng, k, kind, walls, group, player, t)
    ensures s == t
  {
    assert s.placed.Some? ==> !(s.TurnedDown() < t.TurnedDown());
    assert t.placed.Some? ==> !(t.TurnedDown() < s.TurnedDown());
  }

  /** A run of spawn calls made one after another, call by call: the draw
      each call starts at and the group it sees, then the outcome of each
      call. One more cursor and group than calls: the last ones are where the
      run leaves them. */
  datatype Run = Run(cursors: seq<nat>, groups: seq<seq<Rect>>, calls: seq<Spawn>)

  /** `r` is a run from draw `k` on `group`: each call reads on from where
      the one before stopped and sees what the ones before added. */
  predicate RunFrom(rng: nat -> int, k: nat, kind: Kind, walls: seq<Rect>, group: seq<Rect>, player: Rect, r: Run) {
    |r.cursors| == |r.calls| + 1 && |r.groups| == |r.calls| + 1 &&
    r.cursors[0] == k && r.groups[0] == group &&
    forall i :: 0 <= i < |r.calls| ==>
      Outcome(rng, r.cursors[i], kind, walls, r.groups[i], player, r.calls[i]) &&
      r.cursors[i + 1] == r.cursors[i] + 2 * r.calls[i].tries &&
      r.groups[i + 1] == r.groups[i] + r.calls[i].Added()
  }

  /** The run of no calls. */
  function NoRun(k: nat, group: seq<Rect>): (r: Run)
    ensures forall rng, kind, walls, player :: RunFrom(rng, k, kind, walls, group, player, r)
  {
    Run([k], [group], [])
  }

  /** A run extended by one more call, made from where the run stopped. */
  function Extend(r: Run, s: Spawn): (e: Run)
    requires |r.cursors| == |r.calls| + 1 && |r.groups| == |r.calls| + 1
  {
    var n := |r.calls|;
    Run(r.cursors + [r.cursors[n] + 2 * s.tries], r.groups + [r.groups[n] + s.Added()], r.calls + [s])
  }

  lemma ExtendRun(rng: nat -> int, k: nat, kind: Kind, walls: seq<Rect>, group: seq<Rect>, player: Rect, r: Run, s: Spawn)
    requires RunFrom(rng, k, kind, walls, group, player, r)
    requires Outcome(rng, r.cursors[|r.calls|], kind, walls, r.groups[|r.calls|], player, s)
    ensures RunFrom(rng, k, kind, walls, group, player, Extend(r, s))
  {
    var e := Extend(r, s);
    var n := |r.calls|;
    forall i | 0 <= i < |e.calls|
      ensures Outcome(rng, e.cursors[i], kind, walls, e.groups[i], player, e.calls[i]) &&
        e.cursors[i + 1] == e.cursors[i] + 2 * e.calls[i].tries &&
        e.groups[i + 1] == e.groups[i] + e.calls[i].Added()
    {
      if i < n {
        assert e.cursors[i] == r.cursors[i] && e.cursors[i + 1] == r.cursors[i + 1];
        assert e.groups[i] == r.groups[i] && e.groups[i + 1] == r.groups[i + 1];
        assert e.calls[i] == r.calls[i];
      } else {
        assert e.cursors[i] == r.cursors[n] && e.groups[i] == r.groups[n] && e.calls[i] == s;
      }
    }
  }

  /** A run without its last call. */
  function Shorten(r: Run): (p: Run)
    requires |r.cursors| == |r.calls| + 1 && |r.groups| == |r.calls| + 1 && r.calls != []
  {
    var n := |r.calls|;
    Run(r.cursors[..n], r.groups[..n], r.calls[..n - 1])
  }

  lemma ShortenRun(rng: nat -> int, k: nat, kind: Kind, walls: seq<Rect>, group: seq<Rect>, player: Rect, r: Run)
    requires RunFrom(rng, k, kind, walls, group, player, r) && r.calls != []
    ensures RunFrom(rng, k, kind, walls, group, player, Shorten(r))
  {
    var p := Shorten(r);
    forall i | 0 <= i < |p.calls|
      ensures Outcome(rng, p.cursors[i], kind, walls, p.groups[i], player, p.calls[i]) &&
        p.cursors[i + 1] == p.cursors[i] + 2 * p.calls[i].tries &&
        p.groups[i + 1] == p.groups[i] + p.calls[i].Added()
    {
      assert p.cursors[i] == r.cursors[i] && p.cursors[i + 1] == r.cursors[i + 1];
      assert p.groups[i] == r.groups[i] && p.groups[i + 1] == r.groups[i + 1];
      assert p.calls[i] == r.calls[i];
    }
  }

  /** A run of `n` spawn calls is exactly `SpawnTimes`: it leaves the group
      with what `SpawnTimes` adds and the cursor where `SpawnTimes` does. */
  lemma {:induction false} RunIsSpawnTimes(rng: nat -> int, k: nat, kind: Kind, walls: seq<Rect>, group: seq<Rect>, player: Rect, r: Run)
    requires RunFrom(rng, k, kind, walls, group, player, r)
    ensures var b := SpawnTimes(rng, k, kind, walls, group, player, |r.calls|);
      r.groups[|r.calls|] == group + b.added && r.cursors[|r.calls|] == b.next
    decreases |r.calls|
  {
    var n := |r.calls|;
    if n == 0 {
      assert r.groups[0] == group + [];
    } else {
      var p := Shorten(r);
      ShortenRun(rng, k, kind, walls, group, player, r);
      RunIsSpawnTimes(rng, k, kind, walls, group, player, p);
      var b := SpawnTimes(rng, k, kind, walls, group, player, n - 1);
      LastCall(rng, k, kind, walls, group, player, r, b);
    }
  }

  /** The last call of a run whose shorter part agrees with `SpawnTimes`
      is the next spawn call. */
  lemma LastCall(rng: nat -> int, k: nat, kind: Kind, walls: seq<Rect>, group: seq<Rect>, player: Rect, r: Run, b: Batch)
    requires RunFrom(rng, k, kind, walls, group, player, r) && r.calls != []
    requires b == SpawnTimes(rng, k, kind, walls, group, player, |r.calls| - 1)
    requires r.groups[|r.calls| - 1] == group + b.added && r.cursors[|r.calls| - 1] == b.next
    ensures var e := SpawnTimes(rng, k, kind, walls, group, player, |r.calls|);
      r.groups[|r.calls|] == group + e.added && r.cursors[|r.calls|] == e.next
  {
    var n := |r.calls|;
    var s := LastSpawn(rng, k, kind, walls, group, player, r);
    SpawnTimesStep(rng, k, kind, walls, group, player, n - 1, b);
    AppendAssociative(group, b.added, s.Added());
  }

  /** The last call of a run is the spawn call made from where the calls
      before it stopped. */
  lemma LastSpawn(rng: nat -> int, k: nat, kind: Kind, walls: seq<Rect>, group: seq<Rect>, player: Rect, r: Run) returns (s: Spawn)
    requires RunFrom(rng, k, kind, walls, group, player, r) && r.calls != []
    ensures var n := |r.calls|;
      s == r.calls[n - 1] &&
      s == SpawnOne(rng, r.cursors[n - 1], kind, walls, r.groups[n - 1], player) &&
      r.cursors[n] == r.cursors[n - 1] + 2 * s.tries && r.groups[n] == r.groups[n - 1] + s.Added()
  {
    var n := |r.calls|;
    s := r.calls[n - 1];
    OutcomeIsSpawnOne(rng, r.cursors[n - 1], kind, walls, r.groups[n - 1], player, s);
  }

  lemma AppendAssociative<T>(a: seq<T>, b: seq<T>, c: seq<T>)
    ensures a + (b + c) == (a + b) + c
  {
  }

  /** Every sprite a run of spawn calls adds fitted when it was placed: it
      passed the three checks against the walls, the player and (for coins)
      every coin placed before it. */
  lemma {:induction false} SpawnTimesSound(rng: nat -> int, k: nat, kind: Kind, walls: seq<Rect>, group: seq<Rect>, player: Rect, n: nat)
    ensures AllFit(kind, walls, group, player, SpawnTimes(rng, k, kind, walls, group, player, n).added)
    decreases n
  {
    if n > 0 {
      SpawnTimesSound(rng, k, kind, walls, group, player, n - 1);
      var b := SpawnTimes(rng, k, kind, walls, group, player, n - 1);
      var s := SpawnOne(rng, b.next, kind, walls, group + b.added, player);
      SpawnOneSound(rng, b.next, kind, walls, group + b.added, player, s);
      AllFitSnoc(kind, walls, group, player, b.added, s);
    }
  }

  /** A run whose sprites all fit, followed by a call whose sprite fits after
      them. */
  lemma AllFitSnoc(kind: Kind, walls: seq<Rect>, group: seq<Rect>, player: Rect, added: seq<Rect>, s: Spawn)
    requires AllFit(kind, walls, group, player, added)
    requires s.placed.Some? ==> Fits(kind, walls, group + added, player, s.placed.value)
    ensures AllFit(kind, walls, group, player, added + s.Added())
  {
    var all := added + s.Added();
    forall i | 0 <= i < |all| ensures Fits(kind, walls, group + all[..i], player, all[i]) {
      if i < |added| {
        assert all[..i] == added[..i] && all[i] == added[i];
      } else {
        assert all[..i] == added && all[i] == s.placed.value;
      }
    }
  }

  /** Where every sprite of `kind` stays once placed: the kind's size, a
      centre in the kind's box, and clear of the walls. */
  predicate Settled(kind: Kind, walls: seq<Rect>, r: Rect) {
    r.w == Size(kind) && r.h == Size(kind) && BoxOf(kind).HoldsCenterOf(r) && !CollidesAny(r, walls)
  }

  /** The part of fitting that does not depend on the group: settled, and
      clear of the player. */
  predicate Placed(kind: Kind, walls: seq<Rect>, player: Rect, r: Rect) {
    Settled(kind, walls, r) && !Collide(r, player)
  }

  predicate AllSettled(kind: Kind, walls: seq<Rect>, group: seq<Rect>) {
    forall i :: 0 <= i < |group| ==> Settled(kind, walls, group[i])
  }

  predicate AllPlaced(kind: Kind, walls: seq<Rect>, player: Rect, group: seq<Rect>) {
    forall i :: 0 <= i < |group| ==> Placed(kind, walls, player, group[i])
  }

  /** Coins that all fitted, added to a disjoint group, leave it disjoint. */
  lemma AllFitCoinsDisjoint(walls: seq<Rect>, before: seq<Rect>, player: Rect, added: seq<Rect>)
    requires Disjoint(before)
    requires AllFit(CoinKind, walls, before, player, added)
    ensures Disjoint(before + added)
  {
    var g := before + added;
    forall i, j | 0 <= i < j < |g| ensures !Collide(g[i], g[j]) {
      if |before| <= j {
        var m := j - |before|;
        var prefix := before + added[..m];
        assert Fits(CoinKind, walls, prefix, player, added[m]);
        assert prefix[i] == g[i] && added[m] == g[j];
        assert !Collide(g[j], g[i]);
        CollideSymmetric(g[i], g[j]);
      } else {
        assert g[i] == before[i] && g[j] == before[j];
      }
    }
  }

  /** Spawning coins keeps the coin group pairwise disjoint, and every new
      coin has the coin size, a centre in the coin box, and is clear of the
      walls and of the player. */
  lemma SpawnCoinsKeepApart(rng: nat -> int, k: nat, walls: seq<Rect>, group: seq<Rect>, player: Rect, n: nat)
    requires Disjoint(group)
    ensures Disjoint(group + SpawnTimes(rng, k, CoinKind, walls, group, player, n).added)
    ensures AllPlaced(CoinKind, walls, player, SpawnTimes(rng, k, CoinKind, walls, group, player, n).added)
  {
    var b := SpawnTimes(rng, k, CoinKind, walls, group, player, n);
    SpawnTimesSound(rng, k, CoinKind, walls, group, player, n);
    AllFitCoinsDisjoint(walls, group, player, b.added);
  }

  /** Every hazard a run of spawn calls adds has the hazard size, a centre in
      the hazard box, and is clear of the walls and of the player. */
  lemma SpawnHazardsPlaced(rng: nat -> int, k: nat, walls: seq<Rect>, group: seq<Rect>, player: Rect, n: nat)
    ensures AllPlaced(HazardKind, walls, player, SpawnTimes(rng, k, HazardKind, walls, group, player, n).added)
  {
    SpawnTimesSound(rng, k, HazardKind, walls, group, player, n);
  }

  /** Some run of `n` spawn calls from draw `k` onto `group` leaves the
      group `out` and the cursor at `next`. */
  ghost predicate RunLeaves(rng: nat -> int, k: nat, kind: Kind, walls: seq<Rect>, group: seq<Rect>, player: Rect,
                            n: nat, out: seq<Rect>, next: nat)
  {
    exists r: Run :: RunFrom(rng, k, kind, walls, group, player, r) && |r.calls| == n && out == r.groups[n] && next == r.cursors[n]
  }

  /** What such a run leaves is what the reference definition gives. */
  lemma RunLeavesIsSpawnTimes(rng: nat -> int, k: nat, kind: Kind, walls: seq<Rect>, group: seq<Rect>, player: Rect,
                              n: nat, out: seq<Rect>, next: nat)
    requires RunLeaves(rng, k, kind, walls, group, player, n, out, next)
    ensures var b := SpawnTimes(rng, k, kind, walls, group, player, n);
      out == group + b.added && next == b.next
  {
    var r: Run :| RunFrom(rng, k, kind, walls, group, player, r) && |r.calls| == n && out == r.groups[n] && next == r.cursors[n];
    RunIsSpawnTimes(rng, k, kind, walls, group, player, r);
  }

  /** Collecting coins and spawning replacements keeps the coin group sound:
      the coins that survive the player's rectangle `player`, followed by
      the coins spawned against it, are pairwise apart and all placed clear
      of the walls and of `player`. */
  lemma RespawnKeepsApart(rng: nat -> int, k: nat, walls: seq<Rect>, coins: seq<Rect>, player: Rect,
                          n: nat, out: seq<Rect>, next: nat)
    requires Disjoint(coins) && AllSettled(CoinKind, walls, coins)
    requires RunLeaves(rng, k, CoinKind, walls, Survivors(player, coins), player, n, out, next)
    ensures Disjoint(out) && AllPlaced(CoinKind, walls, player, out)
  {
    var kept := Survivors(player, coins);
    var b := SpawnTimes(rng, k, CoinKind, walls, kept, player, n);
    RunLeavesIsSpawnTimes(rng, k, CoinKind, walls, kept, player, n, out, next);
    SurvivorsKeepDisjoint(player, coins);
    SpawnCoinsKeepApart(rng, k, walls, kept, player, n);
    SurvivorsPlaced(walls, coins, player);
    AllPlacedAppend(CoinKind, walls, player, kept, b.added);
  }

  /** The coins a rectangle leaves untouched are placed clear of it. */
  lemma SurvivorsPlaced(walls: seq<Rect>, coins: seq<Rect>, player: Rect)
    requires AllSettled(CoinKind, walls, coins)
    ensures AllPlaced(CoinKind, walls, player, Survivors(player, coins))
  {
    var kept := Survivors(player, coins);
    HitsExactly(player, coins);
    forall i | 0 <= i < |kept| ensures Placed(CoinKind, walls, player, kept[i]) {
      assert kept[i] in coins;
      CollideSymmetric(player, kept[i]);
    }
  }

  lemma AllPlacedAppend(kind: Kind, walls: seq<Rect>, player: Rect, a: seq<Rect>, b: seq<Rect>)
    requires AllPlaced(kind, walls, player, a) && AllPlaced(kind, walls, player, b)
    ensures AllPlaced(kind, walls, player, a + b)
  {
    forall i | 0 <= i < |a + b| ensures Placed(kind, walls, player, (a + b)[i]) {
      if i >= |a| {
        assert (a + b)[i] == b[i - |a|];
      }
    }
  }
}
