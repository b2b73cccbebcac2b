/** The full scene of src/Animacion.cpp: a ship that zig-zags and fires
    upwards, a 5x3 formation of aliens that zig-zag and slowly descend, and a
    collision pass in which missiles kill the aliens they come close to.
    Drawing and the paced endless loop are not part of this model. */
module FullScene {
  import opened Vectors

  // ---------------------------------------------------------------------
  // Misil: a single-cell projectile, stored by value in the ship's vector
  // ---------------------------------------------------------------------

  datatype Misil = Misil(x: int, y: int) {
    /** One frame of flight: one row up, same column. */
    function Mover(): (m: Misil)
      ensures m.x == x && m.y == y - 1
    {
      Misil(x, y - 1)
    }
  }

  /** A missile after `n` frames of flight. */
  function Flight(m: Misil, n: nat): Misil
    decreases n
  {
    if n == 0 then m else Flight(m, n - 1).Mover()
  }

  /** A missile never stops climbing: after `n` frames it is exactly `n` rows
      higher, in the same column. */
  lemma {:induction false} FlightClimbs(m: Misil, n: nat)
    ensures Flight(m, n) == Misil(m.x, m.y - n)
  {
    if n > 0 {
      FlightClimbs(m, n - 1);
    }
  }

  /** Every missile of a vector moved once, in place. */
  function MoveAll(ms: seq<Misil>): seq<Misil>
  {
    seq(|ms|, i requires 0 <= i < |ms| => ms[i].Mover())
  }

  lemma MoveAllAppend(a: seq<Misil>, b: seq<Misil>)
    ensures MoveAll(a + b) == MoveAll(a) + MoveAll(b)
  {
    assert forall i :: 0 <= i < |a + b| ==> MoveAll(a + b)[i] == (MoveAll(a) + MoveAll(b))[i];
  }

  /** The ship's pruning predicate: a missile is gone once it has left the
      top of the screen. */
  predicate Expired(m: Misil)
  {
    m.y < 0
  }

  // ---------------------------------------------------------------------
  // Alien
  // ---------------------------------------------------------------------

  datatype AlienState = AlienState(x: int, y: int, frame: nat, vivo: bool)

  /** A freshly constructed alien. */
  function NewAlien(x: int, y: int): AlienState
  {
    AlienState(x, y, 0, true)
  }

  /** One frame of an alien's movement: a 15-frame zig-zag and a one-row
      drop every 80 frames. A dead alien is inert. */
  function AlienNext(a: AlienState): (r: AlienState)
    ensures r.vivo == a.vivo
    ensures !a.vivo ==> r == a
    ensures a.vivo ==> r.frame == a.frame + 1 && Abs(r.x - a.x) == 1 && a.y <= r.y <= a.y + 1
  {
    if !a.vivo then a
    else
      var f := a.frame + 1;
      AlienState(if (f / 15) % 2 == 0 then a.x + 1 else a.x - 1,
                 if f % 80 == 0 then a.y + 1 else a.y,
                 f, true)
  }

  /** An alien after `n` frames. */
  function AlienRun(a: AlienState, n: nat): AlienState
    decreases n
  {
    if n == 0 then a else AlienNext(AlienRun(a, n - 1))
  }

  /** Horizontal displacement of a live alien, relative to where it started,
      at a given point of its 30-frame zig-zag: 14 steps right, 15 steps
      left, then right again. */
  function Sway(r: int): int
  {
    if r < 15 then r else 28 - r
  }

  /** How one frame changes the zig-zag offset. */
  lemma SwayStep(n: nat)
    requires n > 0
    ensures Sway(n % 30) == Sway((n - 1) % 30) + (if (n / 15) % 2 == 0 then 1 else -1)
  {
    var q, r := (n - 1) / 30, (n - 1) % 30;
    if r == 29 {
      assert n == 30 * (q + 1);
      assert n % 30 == 0 && n / 15 == 2 * q + 2;
    } else {
      assert n == 30 * q + (r + 1);
      assert n % 30 == r + 1;
      assert n / 15 == 2 * q + (r + 1) / 15;
    }
  }

  /** How one frame changes the descent. */
  lemma DropStep(n: nat)
    requires n > 0
    ensures n / 80 == (n - 1) / 80 + (if n % 80 == 0 then 1 else 0)
  {
    var q, r := (n - 1) / 80, (n - 1) % 80;
    if r == 79 {
      assert n == 80 * (q + 1);
    } else {
      assert n == 80 * q + (r + 1);
    }
  }

  /** Closed form of a fresh alien's path: after `n` frames it is
      `Sway(n % 30)` columns right of its start and `n / 80` rows lower. */
  lemma {:induction false} AlienRunClosedForm(x0: int, y0: int, n: nat)
    ensures AlienRun(NewAlien(x0, y0), n) == AlienState(x0 + Sway(n % 30), y0 + n / 80, n, true)
  {
    if n > 0 {
      AlienRunClosedForm(x0, y0, n - 1);
      SwayStep(n);
      DropStep(n);
    }
  }

  /** A live alien never strays more than one column left or fourteen
      columns right of its starting column. */
  lemma AlienStaysNearColumn(x0: int, y0: int, n: nat)
    ensures x0 - 1 <= AlienRun(NewAlien(x0, y0), n).x <= x0 + 14
  {
    AlienRunClosedForm(x0, y0, n);
  }

  /** The zig-zag of a fresh alien, in every period: it is 14 columns right
      of its start after 30 q + 14 frames and 13 after 30 q + 15 (so, from the
      start, 15 frames give 14 steps right and then one left). */
  lemma AlienSwayCadence(x0: int, y0: int, q: nat)
    ensures AlienRun(NewAlien(x0, y0), 30 * q + 14).x == x0 + 14
    ensures AlienRun(NewAlien(x0, y0), 30 * q + 15).x == x0 + 13
  {
    PeriodOffsets(q);
    AlienColumn(x0, y0, 30 * q + 14);
    AlienColumn(x0, y0, 30 * q + 15);
  }

  /** The column half of the closed form, on its own. */
  lemma AlienColumn(x0: int, y0: int, n: nat)
    ensures AlienRun(NewAlien(x0, y0), n).x == x0 + Sway(n % 30)
  {
    AlienRunClosedForm(x0, y0, n);
  }

  lemma PeriodOffsets(q: nat)
    ensures (30 * q + 14) % 30 == 14 && (30 * q + 15) % 30 == 15
    ensures (80 * q + 79) / 80 == q && (80 * q + 80) / 80 == q + 1
  {
  }

  /** The descent of a fresh alien: its (q + 1)-th drop of one row happens
      exactly on frame 80 (q + 1). */
  lemma AlienDropCadence(x0: int, y0: int, q: nat)
    ensures AlienRun(NewAlien(x0, y0), 80 * q + 79).y == y0 + q
    ensures AlienRun(NewAlien(x0, y0), 80 * q + 80).y == y0 + q + 1
  {
    PeriodOffsets(q);
    AlienRunClosedForm(x0, y0, 80 * q + 79);
    AlienRunClosedForm(x0, y0, 80 * q + 80);
  }

  /** A dead alien stays exactly where and as it is, however many frames
      pass. */
  lemma {:induction false} DeadAlienFrozen(a: AlienState, n: nat)
    requires !a.vivo
    ensures AlienRun(a, n) == a
  {
    if n > 0 {
      DeadAlienFrozen(a, n - 1);
    }
  }

  class Alien {
    var x: int
    var y: int
    var frame: nat
    var vivo: bool

    function State(): AlienState
      reads this
    {
      AlienState(x, y, frame, vivo)
    }

    constructor (posX: int, posY: int)
      ensures State() == NewAlien(posX, posY)
    {
      x, y := posX, posY;
      frame := 0;
      vivo := true;
    }

    method Mover()
      modifies this
      ensures State() == AlienNext(old(State()))
    {
      if !vivo {
        return;
      }
      frame := frame + 1;
      if (frame / 15) % 2 == 0 {
        x := x + 1;
      } else {
        x := x - 1;
      }
      if frame % 80 == 0 {
        y := y + 1;
      }
    }

    /** Kills the alien; a second call changes nothing more. */
    method Morir()
      modifies this
      ensures State() == old(State()).(vivo := false)
    {
      vivo := false;
    }

    method EstaVivo() returns (b: bool)
      ensures b == vivo
    {
      b := vivo;
    }
  }

  // ---------------------------------------------------------------------
  // Nave: the ship, with the vector of missiles it owns
  // ---------------------------------------------------------------------

  datatype NaveState = NaveState(x: int, y: int, frame: nat, misiles: seq<Misil>)

  function NewNave(x: int, y: int): NaveState
  {
    NaveState(x, y, 0, [])
  }

  /** The missile fired on frame `f` by a ship at column `x`, row `y`: one,
      from the ship's nose, every 10th frame. */
  function Fired(x: int, y: int, f: int): seq<Misil>
  {
    if f % 10 == 0 then [Misil(x + 3, y - 1)] else []
  }

  /** One frame of the ship: a 45-frame zig-zag clamped to columns 0..60,
      a shot every 10th frame, every missile (the new one included) moved up,
      and the missiles above the screen dropped. */
  function NaveNext(s: NaveState): (r: NaveState)
    ensures 0 <= r.x <= 60 && r.y == s.y && r.frame == s.frame + 1
    ensures forall i :: 0 <= i < |r.misiles| ==> r.misiles[i].y >= 0
  {
    var f := s.frame + 1;
    var x := NaveColumn(s.x, f);
    NaveState(x, s.y, f, RemoveIf(MoveAll(s.misiles + Fired(x, s.y, f)), Expired))
  }

  /** The ship's column on frame `f`, coming from column `x`: one step of
      the 45-frame zig-zag, then clamped to the screen. */
  function NaveColumn(x: int, f: int): (c: int)
    ensures 0 <= c <= 60
    ensures x < 0 || x > 60 || Abs(c - x) <= 1
  {
    var x := if (f / 45) % 2 == 0 then x + 1 else x - 1;
    var x := if x < 0 then 0 else x;
    if x > 60 then 60 else x
  }

  /** The missile vector after one frame: the old missiles moved up and
      pruned, in their order, followed by the new shot (already one row
      further up) when the frame number is a multiple of 10 and the shot is
      still on screen. */
  lemma NaveNextMissiles(s: NaveState)
    ensures var r := NaveNext(s);
      r.misiles == RemoveIf(MoveAll(s.misiles), Expired) +
                   (if r.frame % 10 == 0 && s.y >= 2 then [Misil(r.x + 3, s.y - 2)] else [])
  {
    var r := NaveNext(s);
    var shot := Fired(r.x, s.y, r.frame);
    MoveAllAppend(s.misiles, shot);
    RemoveIfAppend(MoveAll(s.misiles), MoveAll(shot), Expired);
    if r.frame % 10 == 0 {
      assert MoveAll(shot) == [Misil(r.x + 3, s.y - 2)];
      RemoveIfSnoc([], Misil(r.x + 3, s.y - 2), Expired);
    } else {
      assert MoveAll(shot) == [];
    }
  }

  /** A missile is in the vector after a frame exactly when it is a moved
      missile of the frame that has not left the top of the screen. */
  lemma NaveNextPrunes(s: NaveState, m: Misil)
    ensures var r := NaveNext(s);
      m in r.misiles <==> m in MoveAll(s.misiles + Fired(r.x, s.y, r.frame)) && m.y >= 0
  {
    var r := NaveNext(s);
    RemoveIfMembers(MoveAll(s.misiles + Fired(r.x, s.y, r.frame)), Expired, m);
  }

  /** The ship after `n` frames. */
  function NaveRun(s: NaveState, n: nat): NaveState
    decreases n
  {
    if n == 0 then s else NaveNext(NaveRun(s, n - 1))
  }

  /** However many frames pass, the ship stays on its row, and once it has
      moved at all it stays within columns 0..60 with no missile above the
      screen. */
  lemma {:induction false} NaveRunBounds(s: NaveState, n: nat)
    ensures NaveRun(s, n).y == s.y && NaveRun(s, n).frame == s.frame + n
    ensures n > 0 ==> 0 <= NaveRun(s, n).x <= 60
    ensures n > 0 ==> forall i :: 0 <= i < |NaveRun(s, n).misiles| ==> NaveRun(s, n).misiles[i].y >= 0
  {
    if n > 0 {
      NaveRunBounds(s, n - 1);
    }
  }

  /** A frame in which the ship drifts right without touching the wall and
      no missile leaves the screen. */
  lemma NaveDriftStep(s: NaveState)
    requires ((s.frame + 1) / 45) % 2 == 0 && 0 <= s.x < 60 && s.y >= 2
    requires forall i :: 0 <= i < |s.misiles| ==> s.misiles[i].y >= 1
    ensures NaveNext(s) == NaveState(s.x + 1, s.y, s.frame + 1,
      MoveAll(s.misiles) + (if (s.frame + 1) % 10 == 0 then [Misil(s.x + 4, s.y - 2)] else []))
  {
    NaveNextMissiles(s);
    RemoveIfNone(MoveAll(s.misiles), Expired);
  }

  /** Where a fresh ship at (x0, y0) is, frame by frame, in its first 20
      frames when it is far enough from the right wall and the top. */
  function Opening(x0: int, y0: int, k: nat): NaveState
  {
    NaveState(x0 + k, y0, k,
      if k < 10 then []
      else if k < 20 then [Misil(x0 + 13, y0 + 8 - k)]
      else [Misil(x0 + 13, y0 - 12), Misil(x0 + 23, y0 - 2)])
  }

  /** The ship's cadences during its first 20 frames: it keeps drifting
      right, and it fires on frames 10 and 20 only. */
  lemma OpeningCadence(k: nat)
    requires 0 < k <= 20
    ensures (k / 45) % 2 == 0
    ensures k % 10 == 0 <==> k == 10 || k == 20
  {
  }

  /** One frame of the opening, one lemma per phase. */
  lemma OpeningStep(x0: int, y0: int, k: nat)
    requires 0 <= x0 <= 40 && y0 >= 12 && 0 < k <= 20
    ensures NaveNext(Opening(x0, y0, k - 1)) == Opening(x0, y0, k)
  {
    if k < 10 {
      OpeningIdle(x0, y0, k);
    } else if k == 10 || k == 20 {
      OpeningShot(x0, y0, k);
    } else {
      OpeningClimb(x0, y0, k);
    }
  }

  lemma OpeningIdle(x0: int, y0: int, k: nat)
    requires 0 <= x0 <= 40 && y0 >= 12 && 0 < k < 10
    ensures NaveNext(Opening(x0, y0, k - 1)) == Opening(x0, y0, k)
  {
    var p := Opening(x0, y0, k - 1);
    assert p == NaveState(x0 + k - 1, y0, k - 1, []);
    OpeningCadence(k);
    QuietFrame(p);
    assert MoveAll([]) == [];
  }

  lemma OpeningClimb(x0: int, y0: int, k: nat)
    requires 0 <= x0 <= 40 && y0 >= 12 && 10 < k < 20
    ensures NaveNext(Opening(x0, y0, k - 1)) == Opening(x0, y0, k)
  {
    var p := Opening(x0, y0, k - 1);
    assert p == NaveState(x0 + k - 1, y0, k - 1, [Misil(x0 + 13, y0 + 9 - k)]);
    OpeningCadence(k);
    QuietFrame(p);
    assert MoveAll([Misil(x0 + 13, y0 + 9 - k)]) == [Misil(x0 + 13, y0 + 8 - k)];
  }

  lemma OpeningShot(x0: int, y0: int, k: nat)
    requires 0 <= x0 <= 40 && y0 >= 12 && (k == 10 || k == 20)
    ensures NaveNext(Opening(x0, y0, k - 1)) == Opening(x0, y0, k)
  {
    var p := Opening(x0, y0, k - 1);
    OpeningCadence(k);
    if k == 10 {
      assert p == NaveState(x0 + 9, y0, 9, []);
      ShotFrame(p);
      assert MoveAll([]) == [];
    } else {
      assert p == NaveState(x0 + 19, y0, 19, [Misil(x0 + 13, y0 - 11)]);
      ShotFrame(p);
      assert MoveAll([Misil(x0 + 13, y0 - 11)]) == [Misil(x0 + 13, y0 - 12)];
    }
  }

  /** A drifting frame with no shot and nothing expiring. */
  lemma QuietFrame(p: NaveState)
    requires ((p.frame + 1) / 45) % 2 == 0 && (p.frame + 1) % 10 != 0 && 0 <= p.x < 60 && p.y >= 2
    requires forall i :: 0 <= i < |p.misiles| ==> p.misiles[i].y >= 1
    ensures NaveNext(p) == NaveState(p.x + 1, p.y, p.frame + 1, MoveAll(p.misiles))
  {
    NaveDriftStep(p);
  }

  /** A drifting frame with a shot and nothing expiring. */
  lemma ShotFrame(p: NaveState)
    requires ((p.frame + 1) / 45) % 2 == 0 && (p.frame + 1) % 10 == 0 && 0 <= p.x < 60 && p.y >= 2
    requires forall i :: 0 <= i < |p.misiles| ==> p.misiles[i].y >= 1
    ensures NaveNext(p) == NaveState(p.x + 1, p.y, p.frame + 1, MoveAll(p.misiles) + [Misil(p.x + 4, p.y - 2)])
  {
    NaveDriftStep(p);
  }

  lemma {:induction false} OpeningFrames(x0: int, y0: int, k: nat)
    requires 0 <= x0 <= 40 && y0 >= 12 && k <= 20
    ensures NaveRun(NewNave(x0, y0), k) == Opening(x0, y0, k)
  {
    if k > 0 {
      OpeningFrames(x0, y0, k - 1);
      OpeningStep(x0, y0, k);
    }
  }

  /** A fresh ship (the scene's starts at (20, 24)) holds exactly one
      missile after 10 frames, three columns right of its nose and two rows
      above it, and after 20 frames a second one behind the first. */
  lemma NaveOpening(x0: int, y0: int)
    requires 0 <= x0 <= 40 && y0 >= 12
    ensures NaveRun(NewNave(x0, y0), 10) == NaveState(x0 + 10, y0, 10, [Misil(x0 + 13, y0 - 2)])
    ensures NaveRun(NewNave(x0, y0), 20) ==
      NaveState(x0 + 20, y0, 20, [Misil(x0 + 13, y0 - 12), Misil(x0 + 23, y0 - 2)])
  {
    OpeningFrames(x0, y0, 10);
    OpeningFrames(x0, y0, 20);
  }

  /** The state `NaveNext` yields, recognised from its parts. */
  lemma NaveNextIs(s0: NaveState, s1: NaveState)
    requires s1.frame == s0.frame + 1 && s1.y == s0.y && s1.x == NaveColumn(s0.x, s1.frame)
    requires s1.misiles == RemoveIf(MoveAll(s0.misiles + Fired(s1.x, s0.y, s1.frame)), Expired)
    ensures s1 == NaveNext(s0)
  {
  }

  class Nave {
    var x: int
    var y: int
    var frame: nat
    var misiles: seq<Misil>

    function State(): NaveState
      reads this
    {
      NaveState(x, y, frame, misiles)
    }

    constructor (posX: int, posY: int)
      ensures State() == NewNave(posX, posY)
    {
      x, y := posX, posY;
      frame := 0;
      misiles := [];
    }

    method Mover()
      modifies this
      ensures State() == NaveNext(old(State()))
    {
      ghost var s0 := State();
      MovimientoLateral();
      if frame % 10 == 0 {
        Disparar();
      }
      assert misiles == s0.misiles + Fired(x, y, frame);
      MoverMisiles();
      EliminarExpirados();
      NaveNextIs(s0, State());
    }

    /** The zig-zag at the head of `Mover`: the frame counter goes up and
        the ship takes one step, clamped to columns 0..60. */
    method MovimientoLateral()
      modifies this`x, this`frame
      ensures frame == old(frame) + 1 && x == NaveColumn(old(x), frame)
    {
      frame := frame + 1;
      if (frame / 45) % 2 == 0 {
        x := x + 1;
      } else {
        x := x - 1;
      }
      if x < 0 {
        x := 0;
      }
      if x > 60 {
        x := 60;
      }
    }

    method Disparar()
      modifies this`misiles
      ensures misiles == old(misiles) + [Misil(x + 3, y - 1)]
    {
      misiles := misiles + [Misil(x + 3, y - 1)];
    }

    /** The `for` loop of `Mover` that moves every missile in place. */
    method MoverMisiles()
      modifies this`misiles
      ensures misiles == MoveAll(old(misiles))
    {
      var i := 0;
      while i < |misiles|
        invariant 0 <= i <= |misiles| == |old(misiles)|
        invariant forall k :: 0 <= k < i ==> misiles[k] == old(misiles)[k].Mover()
        invariant forall k :: i <= k < |misiles| ==> misiles[k] == old(misiles)[k]
      {
        misiles := misiles[i := misiles[i].Mover()];
        i := i + 1;
      }
    }

    /** The `erase(remove_if(...))` of `Mover`: a stable in-place compaction
        of the missiles still on screen, then a truncation. */
    method EliminarExpirados()
      modifies this`misiles
      ensures misiles == RemoveIf(old(misiles), Expired)
    {
      ghost var src := misiles;
      var ms := misiles;
      var k, i := 0, 0;
      while i < |ms|
        invariant |ms| == |src|
        invariant 0 <= k <= i <= |src|
        invariant ms[..k] == RemoveIf(src[..i], Expired)
        invariant forall t :: i <= t < |ms| ==> ms[t] == src[t]
      {
        ghost var prev := ms;
        RemoveIfPrefix(src, i, Expired);
        if !Expired(ms[i]) {
          ms := ms[k := ms[i]];
          assert ms[..k + 1] == prev[..k] + [src[i]];
          k := k + 1;
        }
        i := i + 1;
      }
      assert src[..i] == src;
      misiles := ms[..k];
    }

    method GetMisiles() returns (ms: seq<Misil>)
      ensures ms == misiles
    {
      ms := misiles;
    }
  }

  // ---------------------------------------------------------------------
  // Animacion: the scene controller
  // ---------------------------------------------------------------------

  /** Whether a missile lies within the axis-aligned box around an alien's
      centre (two columns right and one row below its top-left corner). That
      box is exactly the 5 by 3 cells of the alien's drawing. */
  predicate Hit(m: Misil, a: AlienState): (h: bool)
    ensures h <==> a.x <= m.x <= a.x + 4 && a.y <= m.y <= a.y + 2
  {
    Abs(m.x - (a.x + 2)) < 3 && Abs(m.y - (a.y + 1)) < 2
  }

  /** What one missile does to one alien: kills it if it is alive and hit. */
  function KillIfHit(m: Misil, a: AlienState): (r: AlienState)
    ensures r.vivo <==> a.vivo && !Hit(m, a)
    ensures r == a.(vivo := r.vivo)
  {
    if a.vivo && Hit(m, a) then a.(vivo := false) else a
  }

  /** One pass of the inner loop for one missile, over the whole roster. */
  function KillNear(m: Misil, roster: seq<AlienState>): seq<AlienState>
  {
    seq(|roster|, j requires 0 <= j < |roster| => KillIfHit(m, roster[j]))
  }

  /** The collision pass in the order the source runs it: missiles in vector
      order, each against the whole roster. */
  function Resolve(ms: seq<Misil>, roster: seq<AlienState>): (r: seq<AlienState>)
    ensures |r| == |roster|
    decreases |ms|
  {
    if ms == [] then roster else KillNear(ms[|ms| - 1], Resolve(ms[..|ms| - 1], roster))
  }

  /** After the collision pass an alien is dead exactly when it was dead
      before or some missile lies within its box; nothing else about any alien
      changes, and the roster keeps its length. */
  lemma {:induction false} ResolveSpec(ms: seq<Misil>, roster: seq<AlienState>, j: int)
    requires 0 <= j < |roster|
    ensures Resolve(ms, roster)[j].vivo <==> roster[j].vivo && !(exists m :: m in ms && Hit(m, roster[j]))
    ensures Resolve(ms, roster)[j] == roster[j].(vivo := Resolve(ms, roster)[j].vivo)
  {
    if ms != [] {
      var ms', m := ms[..|ms| - 1], ms[|ms| - 1];
      assert ms == ms' + [m];
      ResolveSpec(ms', roster, j);
      forall m' | m' in ms ensures m' in ms' || m' == m { }
    }
  }

  /** The outcome of the collision pass does not depend on the order of the
      missiles, only on which missiles there are. */
  lemma ResolveOrderIndependent(ms1: seq<Misil>, ms2: seq<Misil>, roster: seq<AlienState>)
    requires forall m :: m in ms1 <==> m in ms2
    ensures Resolve(ms1, roster) == Resolve(ms2, roster)
  {
    forall j | 0 <= j < |roster|
      ensures Resolve(ms1, roster)[j] == Resolve(ms2, roster)[j]
    {
      ResolveSpec(ms1, roster, j);
      ResolveSpec(ms2, roster, j);
    }
  }

  /** Nor on the order of the roster: what becomes of an alien depends only on
      that alien and the missiles, not on its place or its neighbours. */
  lemma ResolvePerAlien(ms: seq<Misil>, r1: seq<AlienState>, j1: int, r2: seq<AlienState>, j2: int)
    requires 0 <= j1 < |r1| && 0 <= j2 < |r2| && r1[j1] == r2[j2]
    ensures Resolve(ms, r1)[j1] == Resolve(ms, r2)[j2]
  {
    ResolveSpec(ms, r1, j1);
    ResolveSpec(ms, r2, j2);
  }

  /** A missile at (23, 5) kills a live alien at (21, 4), right on its
      centre; one at (30, 5) is seven columns off and spares it; and a dead
      alien stays as it is, hit or not. */
  lemma CollisionExamples()
    ensures KillIfHit(Misil(23, 5), NewAlien(21, 4)) == AlienState(21, 4, 0, false)
    ensures KillIfHit(Misil(30, 5), NewAlien(21, 4)) == NewAlien(21, 4)
    ensures KillIfHit(Misil(23, 5), AlienState(21, 4, 0, false)) == AlienState(21, 4, 0, false)
  {
  }

  /** Every alien of a roster advanced by one frame: nobody dies or comes
      back to life, the dead stay where they are, and every live alien's
      clock ticks once. */
  function Advance(roster: seq<AlienState>): (r: seq<AlienState>)
    ensures |r| == |roster|
    ensures forall j :: 0 <= j < |r| ==> r[j].vivo == roster[j].vivo
    ensures forall j :: 0 <= j < |r| && !roster[j].vivo ==> r[j] == roster[j]
    ensures forall j :: 0 <= j < |r| && roster[j].vivo ==> r[j].frame == roster[j].frame + 1
  {
    seq(|roster|, j requires 0 <= j < |roster| => AlienNext(roster[j]))
  }

  datatype Scene = Scene(nave: NaveState, roster: seq<AlienState>)

  /** The formation the scene starts with: five columns of three aliens, at
      (10 + 10 i, 3 + 5 j), column by column. */
  function Formation(): seq<AlienState>
  {
    seq(15, k requires 0 <= k < 15 => NewAlien(10 + (k / 3) * 10, 3 + (k % 3) * 5))
  }

  /** The formation as laid out: 15 live aliens on frame 0, in columns
      10, 20, .., 50 and rows 3, 8, 13, no two in the same place. */
  lemma FormationLayout()
    ensures |Formation()| == 15
    ensures forall k :: 0 <= k < 15 ==>
      var a := Formation()[k];
      a.vivo && a.frame == 0 && 10 <= a.x <= 50 && (a.x - 10) % 10 == 0 && 3 <= a.y <= 13 && (a.y - 3) % 5 == 0
    ensures forall k, l :: 0 <= k < l < 15 ==>
      (Formation()[k].x, Formation()[k].y) != (Formation()[l].x, Formation()[l].y)
  {
    forall k, l | 0 <= k < l < 15
      ensures (Formation()[k].x, Formation()[k].y) != (Formation()[l].x, Formation()[l].y)
    {
      assert k == 3 * (k / 3) + k % 3 && l == 3 * (l / 3) + l % 3;
    }
  }

  function Initial(): Scene
  {
    Scene(NewNave(20, 24), Formation())
  }

  /** The advance half of one pass of the scene's loop: the ship moves, every
      alien moves, then the collision pass runs against the ship's missiles. */
  function SceneNext(sc: Scene): (r: Scene)
    ensures r.nave == NaveNext(sc.nave)
    ensures |r.roster| == |sc.roster|
    ensures forall j :: 0 <= j < |sc.roster| && !sc.roster[j].vivo ==> r.roster[j] == sc.roster[j]
  {
    var nave := NaveNext(sc.nave);
    ResolveKeepsDead(nave.misiles, Advance(sc.roster));
    Scene(nave, Resolve(nave.misiles, Advance(sc.roster)))
  }

  lemma ResolveKeepsDead(ms: seq<Misil>, roster: seq<AlienState>)
    ensures forall j :: 0 <= j < |roster| && !roster[j].vivo ==> Resolve(ms, roster)[j] == roster[j]
  {
    forall j | 0 <= j < |roster| && !roster[j].vivo
      ensures Resolve(ms, roster)[j] == roster[j]
    {
      ResolveSpec(ms, roster, j);
    }
  }

  /** Within one frame, a dead alien is untouched, no alien comes back to
      life, and a live alien dies exactly when, after moving, some missile of
      the moved ship lies within its box. */
  lemma SceneNextAlien(sc: Scene, j: int)
    requires 0 <= j < |sc.roster|
    ensures var r := SceneNext(sc);
      && (!sc.roster[j].vivo ==> r.roster[j] == sc.roster[j])
      && (r.roster[j].vivo <==>
            sc.roster[j].vivo && !(exists m :: m in r.nave.misiles && Hit(m, AlienNext(sc.roster[j]))))
  {
    ResolveSpec(NaveNext(sc.nave).misiles, Advance(sc.roster), j);
  }

  /** The scene after `n` frames. Death is final: an alien dead at the
      start is, after any number of frames, still dead and where it was. */
  function SceneRun(sc: Scene, n: nat): (r: Scene)
    ensures |r.roster| == |sc.roster|
    ensures forall j :: 0 <= j < |sc.roster| && !sc.roster[j].vivo ==> r.roster[j] == sc.roster[j]
    decreases n
  {
    if n == 0 then sc else SceneNext(SceneRun(sc, n - 1))
  }

  /** However long a scene runs, its roster keeps its length and the ship
      stays on its row within columns 0..60; once a frame has passed, no
      missile is above the screen. */
  lemma {:induction false} SceneRunBounds(sc: Scene, n: nat)
    requires 0 <= sc.nave.x <= 60
    ensures var r := SceneRun(sc, n);
      && |r.roster| == |sc.roster|
      && 0 <= r.nave.x <= 60 && r.nave.y == sc.nave.y
      && (n > 0 ==> forall i :: 0 <= i < |r.nave.misiles| ==> r.nave.misiles[i].y >= 0)
  {
    if n > 0 {
      SceneRunBounds(sc, n - 1);
      assert SceneRun(sc, n) == SceneNext(SceneRun(sc, n - 1));
    }
  }

  /** The scene as created: however long it runs, the roster keeps its 15
      aliens, the ship stays within columns 0..60 on row 24, and no missile
      is above the screen. */
  lemma SceneRunInvariant(n: nat)
    ensures var sc := SceneRun(Initial(), n);
      && |sc.roster| == 15
      && 0 <= sc.nave.x <= 60 && sc.nave.y == 24
      && forall i :: 0 <= i < |sc.nave.misiles| ==> sc.nave.misiles[i].y >= 0
  {
    SceneRunBounds(Initial(), n);
  }

  class Animacion {
    var nave: Nave
    var aliens: seq<Alien>

    /** The roster keeps its 15 distinct aliens. */
    ghost predicate Valid()
      reads this
    {
      |aliens| == 15 && forall i, j :: 0 <= i < j < |aliens| ==> aliens[i] != aliens[j]
    }

    function Roster(): seq<AlienState>
      reads this, aliens
    {
      seq(|aliens|, j reads this, aliens requires 0 <= j < |aliens| => aliens[j].State())
    }

    function State(): Scene
      reads this, nave, aliens
    {
      Scene(nave.State(), Roster())
    }

    constructor ()
      ensures Valid() && State() == Initial()
    {
      var ship := new Nave(20, 24);
      var roster: seq<Alien> := [];
      for i := 0 to 5
        invariant |roster| == 3 * i
        invariant ship.State() == NewNave(20, 24)
        invariant forall k, l :: 0 <= k < l < |roster| ==> roster[k] != roster[l]
        invariant forall k :: 0 <= k < |roster| ==> fresh(roster[k]) && roster[k].State() == Formation()[k]
      {
        for j := 0 to 3
          invariant |roster| == 3 * i + j
          invariant ship.State() == NewNave(20, 24)
          invariant forall k, l :: 0 <= k < l < |roster| ==> roster[k] != roster[l]
          invariant forall k :: 0 <= k < |roster| ==> fresh(roster[k]) && roster[k].State() == Formation()[k]
        {
          var a := new Alien(10 + i * 10, 3 + j * 5);
          assert (3 * i + j) / 3 == i && (3 * i + j) % 3 == j;
          roster := roster + [a];
        }
      }
      nave, aliens := ship, roster;
      new;
      assert forall k :: 0 <= k < 15 ==> Roster()[k] == Formation()[k];
    }

    /** The advance half of one pass of the scene's loop. */
    method Step()
      requires Valid()
      modifies nave, aliens
      ensures Valid()
      ensures State() == SceneNext(old(State()))
    {
      nave.Mover();
      for i := 0 to |aliens|
        invariant nave.State() == NaveNext(old(nave.State()))
        invariant forall k :: 0 <= k < i ==> aliens[k].State() == AlienNext(old(aliens[k].State()))
        invariant forall k :: i <= k < |aliens| ==> aliens[k].State() == old(aliens[k].State())
      {
        aliens[i].Mover();
      }
      assert Roster() == Advance(old(Roster()));
      DetectarColisiones();
    }

    /** Kills every live alien that lies within the box around some missile. */
    method DetectarColisiones()
      requires Valid()
      modifies aliens
      ensures Roster() == Resolve(nave.misiles, old(Roster()))
      ensures nave.State() == old(nave.State())
    {
      var misiles := nave.GetMisiles();
      for i := 0 to |misiles|
        invariant Roster() == Resolve(misiles[..i], old(Roster()))
      {
        assert misiles[..i + 1][..i] == misiles[..i];
        ColisionesDe(misiles[i]);
      }
      assert misiles[..|misiles|] == misiles;
    }

    /** The inner loop of `DetectarColisiones`, for one missile. */
    method ColisionesDe(misil: Misil)
      requires Valid()
      modifies aliens
      ensures Roster() == KillNear(misil, old(Roster()))
    {
      for k := 0 to |aliens|
        invariant forall j :: 0 <= j < k ==> aliens[j].State() == KillIfHit(misil, old(aliens[j].State()))
        invariant forall j :: k <= j < |aliens| ==> aliens[j].State() == old(aliens[j].State())
      {
        var alien := aliens[k];
        var vivo := alien.EstaVivo();
        if vivo {
          var dx := Abs(misil.x - (alien.x + 2));
          var dy := Abs(misil.y - (alien.y + 1));
          if dx < 3 && dy < 2 {
            alien.Morir();
          }
        }
      }
      assert forall j :: 0 <= j < |aliens| ==> Roster()[j] == KillNear(misil, old(Roster()))[j];
    }
  }
}
