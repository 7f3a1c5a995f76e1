/**
  The bookkeeping of one animation frame (tick), over exact reals:
  advance every particle, keep those still alive, spawn new particles for the
  sounding notes, then let every sounding note pull on every particle.
  Positions on the circular layout (getX/getY, cosine and sine) are a
  parameter, and so are the Math.random() draws of the frame.
 */
module Simulation {
  import opened Wrappers
  import opened Geometry
  import opened NoteStore

  datatype Particle = Particle(
    noteNumber: int, velocity: real,
    x: real, y: real, dx: real, dy: real,
    hue: real, start: real, end: real)

  /** A sounding note with its strike velocity and its place on the canvas. */
  datatype ActiveNote = ActiveNote(noteNumber: int, velocity: real, x: real, y: real)

  /** The tunable parameters read by every frame. */
  datatype Settings = Settings(
    gravitationalConstant: real,
    particlesPerFrame: int,
    particleDuration: real,
    sustainDuration: real,
    startVelocity: real)

  /** The layout getX(width, note) and getY(height, note). */
  datatype Layout = Layout(getX: (real, int) -> real, getY: (real, int) -> real)

  /**
    Everything one frame reads besides the particles and the notes: the time,
    the canvas size, the pedal, the settings, the layout, and the frame's
    Math.random() draws in the order they are made.
   */
  datatype Frame = Frame(
    now: real, width: real, height: real, sustain: bool,
    settings: Settings, layout: Layout, random: nat -> real)

  type NoteStates = map<int, Option<Strike>>

  // ---------------------------------------------------------------------------
  // Active-note projection

  /** The active notes among LowestNote .. i-1, in ascending order. */
  function ActiveUpTo(ns: NoteStates, i: int, width: real, height: real, layout: Layout): (r: seq<ActiveNote>)
    requires HasAllNotes(ns) && LowestNote <= i <= HighestNote + 1
    ensures |r| <= i - LowestNote
    decreases i
  {
    if i == LowestNote then []
    else
      ActiveUpTo(ns, i - 1, width, height, layout) +
      match ns[i - 1]
      case None => []
      case Some(st) => [ActiveNote(i - 1, st.velocity, layout.getX(width, i - 1), layout.getY(height, i - 1))]
  }

  /** activeNotes: every sounding piano note, lowest first. */
  function ActiveNotes(ns: NoteStates, width: real, height: real, layout: Layout): (r: seq<ActiveNote>)
    requires HasAllNotes(ns)
    ensures |r| <= HighestNote - LowestNote + 1
  {
    ActiveUpTo(ns, HighestNote + 1, width, height, layout)
  }

  /** The active note `a` is piano note n, sounding, with its velocity and its place. */
  ghost predicate Projects(a: ActiveNote, ns: NoteStates, width: real, height: real, layout: Layout)
    requires HasAllNotes(ns)
  {
    && IsPianoNote(a.noteNumber)
    && ns[a.noteNumber].Some?
    && a.velocity == ns[a.noteNumber].value.velocity
    && a.x == layout.getX(width, a.noteNumber)
    && a.y == layout.getY(height, a.noteNumber)
  }

  /** The projection of the notes below i is strictly ascending. */
  lemma {:induction false} ActiveUpToAscending(ns: NoteStates, i: int, width: real, height: real, layout: Layout)
    requires HasAllNotes(ns) && LowestNote <= i <= HighestNote + 1
    ensures var r := ActiveUpTo(ns, i, width, height, layout);
      && (forall a, b :: 0 <= a < b < |r| ==> r[a].noteNumber < r[b].noteNumber)
      && (forall a :: 0 <= a < |r| ==> r[a].noteNumber < i)
    decreases i
  {
    if i > LowestNote {
      ActiveUpToAscending(ns, i - 1, width, height, layout);
      ActiveUpToExtends(ns, i, width, height, layout);
      var prev := ActiveUpTo(ns, i - 1, width, height, layout);
      var r := ActiveUpTo(ns, i, width, height, layout);
      forall a | 0 <= a < |r| ensures r[a].noteNumber < i {
        if a < |prev| {
          assert r[a] == prev[a];
        }
      }
      forall a, b | 0 <= a < b < |r| ensures r[a].noteNumber < r[b].noteNumber {
        assert r[a] == prev[a];
        if b < |prev| {
          assert r[b] == prev[b];
        }
      }
    }
  }

  /** Every entry of the projection of the notes below i is a sounding piano note with its state. */
  lemma {:induction false} ActiveUpToSound(ns: NoteStates, i: int, width: real, height: real, layout: Layout)
    requires HasAllNotes(ns) && LowestNote <= i <= HighestNote + 1
    ensures var r := ActiveUpTo(ns, i, width, height, layout);
      forall a :: 0 <= a < |r| ==> Projects(r[a], ns, width, height, layout)
    decreases i
  {
    if i > LowestNote {
      ActiveUpToSound(ns, i - 1, width, height, layout);
      ActiveUpToExtends(ns, i, width, height, layout);
      var prev := ActiveUpTo(ns, i - 1, width, height, layout);
      var r := ActiveUpTo(ns, i, width, height, layout);
      forall a | 0 <= a < |r| ensures Projects(r[a], ns, width, height, layout) {
        if a < |prev| {
          assert r[a] == prev[a];
        }
      }
    }
  }

  /** Every sounding note below i has an entry in the projection. */
  lemma {:induction false} ActiveUpToComplete(ns: NoteStates, i: int, width: real, height: real, layout: Layout)
    requires HasAllNotes(ns) && LowestNote <= i <= HighestNote + 1
    ensures var r := ActiveUpTo(ns, i, width, height, layout);
      forall n :: LowestNote <= n < i && ns[n].Some? ==> exists a :: 0 <= a < |r| && r[a].noteNumber == n
    decreases i
  {
    if i > LowestNote {
      ActiveUpToComplete(ns, i - 1, width, height, layout);
      ActiveUpToExtends(ns, i, width, height, layout);
      var prev := ActiveUpTo(ns, i - 1, width, height, layout);
      var r := ActiveUpTo(ns, i, width, height, layout);
      forall n | LowestNote <= n < i && ns[n].Some?
        ensures exists a :: 0 <= a < |r| && r[a].noteNumber == n
      {
        if n == i - 1 {
          assert r[|prev|].noteNumber == n;
        } else {
          var a :| 0 <= a < |prev| && prev[a].noteNumber == n;
          assert r[a] == prev[a];
        }
      }
    }
  }

  /**
    The projection lists, in strictly ascending order, exactly the piano notes
    below i whose state is not null, each with that state's velocity.
   */
  lemma ActiveUpToCharacterised(ns: NoteStates, i: int, width: real, height: real, layout: Layout)
    requires HasAllNotes(ns) && LowestNote <= i <= HighestNote + 1
    ensures var r := ActiveUpTo(ns, i, width, height, layout);
      && (forall a, b :: 0 <= a < b < |r| ==> r[a].noteNumber < r[b].noteNumber)
      && (forall a :: 0 <= a < |r| ==> r[a].noteNumber < i && Projects(r[a], ns, width, height, layout))
      && (forall n :: LowestNote <= n < i && ns[n].Some? ==> exists a :: 0 <= a < |r| && r[a].noteNumber == n)
  {
    ActiveUpToAscending(ns, i, width, height, layout);
    ActiveUpToSound(ns, i, width, height, layout);
    ActiveUpToComplete(ns, i, width, height, layout);
  }

  /**
    One step of the projection loop: the entries for the notes below i-1 stay
    as they were, and one entry for note i-1 follows exactly when it sounds.
   */
  lemma ActiveUpToExtends(ns: NoteStates, i: int, width: real, height: real, layout: Layout)
    requires HasAllNotes(ns) && LowestNote < i <= HighestNote + 1
    ensures var prev := ActiveUpTo(ns, i - 1, width, height, layout);
      var r := ActiveUpTo(ns, i, width, height, layout);
      && |r| == |prev| + (if ns[i - 1].Some? then 1 else 0)
      && (forall a :: 0 <= a < |prev| ==> r[a] == prev[a])
      && (ns[i - 1].Some? ==>
            r[|prev|] == ActiveNote(i - 1, ns[i - 1].value.velocity, layout.getX(width, i - 1), layout.getY(height, i - 1)))
  {
  }

  /** The whole projection: the sounding piano notes, ascending, each exactly once. */
  lemma ActiveNotesCharacterised(ns: NoteStates, width: real, height: real, layout: Layout)
    requires HasAllNotes(ns)
    ensures var r := ActiveNotes(ns, width, height, layout);
      && (forall a, b :: 0 <= a < b < |r| ==> r[a].noteNumber < r[b].noteNumber)
      && (forall a :: 0 <= a < |r| ==> Projects(r[a], ns, width, height, layout))
      && (forall n :: IsPianoNote(n) && ns[n].Some? ==> exists a :: 0 <= a < |r| && r[a].noteNumber == n)
  {
    var r := ActiveNotes(ns, width, height, layout);
    assert r == ActiveUpTo(ns, HighestNote + 1, width, height, layout);
    ActiveUpToCharacterised(ns, HighestNote + 1, width, height, layout);
    forall a, b | 0 <= a < b < |r| ensures r[a].noteNumber < r[b].noteNumber {
    }
  }

  // ---------------------------------------------------------------------------
  // Advance and expire

  /** The distance covered at speed v over dt milliseconds. */
  function Displacement(v: real, dt: real): real {
    v * dt
  }

  /** Move a particle by its velocity over dt milliseconds. */
  function Advance(p: Particle, dt: real): (q: Particle)
    ensures q == p.(x := q.x, y := q.y)
    ensures dt == 0.0 ==> q == p
  {
    p.(x := p.x + Displacement(p.dx, dt), y := p.y + Displacement(p.dy, dt))
  }

  /** The advanced particles that are still alive at `now`, in their old order. */
  function Survivors(ps: seq<Particle>, dt: real, now: real): (r: seq<Particle>)
    ensures |r| <= |ps|
    ensures forall k :: 0 <= k < |r| ==> now < r[k].end
  {
    if |ps| == 0 then []
    else
      var p := ps[|ps| - 1];
      Survivors(ps[..|ps| - 1], dt, now) + (if now < p.end then [Advance(p, dt)] else [])
  }

  /** Expiry keeps the order: the survivors of a + b are those of a, then those of b. */
  lemma {:induction false} SurvivorsOfConcat(a: seq<Particle>, b: seq<Particle>, dt: real, now: real)
    ensures Survivors(a + b, dt, now) == Survivors(a, dt, now) + Survivors(b, dt, now)
    decreases |b|
  {
    if |b| == 0 {
      assert a + b == a;
    } else {
      var b' := b[..|b| - 1];
      assert (a + b)[..|a + b| - 1] == a + b';
      assert (a + b)[|a + b| - 1] == b[|b| - 1];
      SurvivorsOfConcat(a, b', dt, now);
    }
  }

  /**
    A particle survives exactly when it is still alive (now < end), and it
    survives moved by its velocity; no particle outlives its end time.
   */
  lemma {:induction false} SurvivorsAreLiveParticles(ps: seq<Particle>, dt: real, now: real)
    ensures var r := Survivors(ps, dt, now);
      && |r| <= |ps|
      && (forall p :: p in ps && now < p.end ==> Advance(p, dt) in r)
      && (forall q :: q in r ==> now < q.end && exists p :: p in ps && now < p.end && q == Advance(p, dt))
    decreases |ps|
  {
    if |ps| > 0 {
      var init := ps[..|ps| - 1];
      SurvivorsAreLiveParticles(init, dt, now);
      assert ps == init + [ps[|ps| - 1]];
      forall p | p in ps && now < p.end ensures Advance(p, dt) in Survivors(ps, dt, now) {
        if p != ps[|ps| - 1] {
          assert p in init;
        }
      }
    }
  }

  /** If no particle has expired, every one of them survives. */
  lemma {:induction false} AllLiveSurvive(ps: seq<Particle>, dt: real, now: real)
    requires forall k :: 0 <= k < |ps| ==> now < ps[k].end
    ensures |Survivors(ps, dt, now)| == |ps|
    decreases |ps|
  {
    if |ps| > 0 {
      AllLiveSurvive(ps[..|ps| - 1], dt, now);
    }
  }

  // ---------------------------------------------------------------------------
  // Spawn

  /** The number of iterations of `for (j = 0; j < particlesPerFrame; ++j)`. */
  function SpawnCount(s: Settings): (c: nat)
    ensures s.particlesPerFrame >= 0 ==> c == s.particlesPerFrame
    ensures s.particlesPerFrame < 0 ==> c == 0
  {
    if s.particlesPerFrame > 0 then s.particlesPerFrame else 0
  }

  /**
    The k-th particle spawned in a frame, for note n struck with `velocity`:
    placed on the note, with random velocity from draws 2k and 2k+1, the note's
    hue, born now, and living for the sustain duration while the pedal is down,
    otherwise for the particle duration scaled by the strike velocity.
   */
  function NewParticle(n: int, velocity: real, k: nat, f: Frame): (q: Particle)
    requires n >= LowestNote
    ensures Hue(n) == Some(q.hue) && 0.0 <= q.hue <= 11.0 / 12.0
  {
    Particle(
      noteNumber := n,
      velocity := velocity,
      x := f.layout.getX(f.width, n),
      y := f.layout.getY(f.height, n),
      dx := (f.settings.startVelocity / 50.0) * (f.random(2 * k) - 0.5),
      dy := (f.settings.startVelocity / 50.0) * (f.random(2 * k + 1) - 0.5),
      hue := Hue(n).value,
      start := f.now,
      end := if f.sustain then f.now + f.settings.sustainDuration
             else f.now + f.settings.particleDuration * velocity)
  }

  /** The first c particles spawned for note n, the first of them being the frame's k0-th. */
  function Batch(n: int, velocity: real, k0: nat, c: nat, f: Frame): (r: seq<Particle>)
    requires n >= LowestNote
    ensures |r| == c
  {
    if c == 0 then []
    else Batch(n, velocity, k0, c - 1, f) + [NewParticle(n, velocity, k0 + c - 1, f)]
  }

  /** The particles spawned for piano note n (none when it is silent). */
  function NoteBatch(ns: NoteStates, n: int, k0: nat, f: Frame): (r: seq<Particle>)
    requires HasAllNotes(ns) && IsPianoNote(n)
    ensures |r| == if ns[n].Some? then SpawnCount(f.settings) else 0
  {
    match ns[n]
    case None => []
    case Some(st) => Batch(n, st.velocity, k0, SpawnCount(f.settings), f)
  }

  /** The particles spawned for the notes LowestNote .. i-1, in note order. */
  function SpawnUpTo(ns: NoteStates, i: int, f: Frame): (r: seq<Particle>)
    requires HasAllNotes(ns) && LowestNote <= i <= HighestNote + 1
    decreases i
  {
    if i == LowestNote then []
    else
      var prev := SpawnUpTo(ns, i - 1, f);
      prev + NoteBatch(ns, i - 1, |prev|, f)
  }

  /** One more note's batch, as the spawn loop appends it: a full batch when the note sounds, nothing otherwise. */
  lemma SpawnUpToStep(ns: NoteStates, n: int, f: Frame)
    requires HasAllNotes(ns) && IsPianoNote(n)
    ensures ns[n].None? ==> SpawnUpTo(ns, n + 1, f) == SpawnUpTo(ns, n, f)
    ensures ns[n].Some? ==>
      SpawnUpTo(ns, n + 1, f)
      == SpawnUpTo(ns, n, f) + Batch(n, ns[n].value.velocity, |SpawnUpTo(ns, n, f)|, SpawnCount(f.settings), f)
  {
    assert SpawnUpTo(ns, n, f) + [] == SpawnUpTo(ns, n, f);
  }

  /** All particles spawned by one frame. */
  function Spawned(ns: NoteStates, f: Frame): (r: seq<Particle>)
    requires HasAllNotes(ns)
  {
    SpawnUpTo(ns, HighestNote + 1, f)
  }

  /** The number of particles of note n in ps. */
  function CountOf(ps: seq<Particle>, n: int): nat {
    if |ps| == 0 then 0
    else CountOf(ps[..|ps| - 1], n) + (if ps[|ps| - 1].noteNumber == n then 1 else 0)
  }

  lemma {:induction false} CountOfConcat(a: seq<Particle>, b: seq<Particle>, n: int)
    ensures CountOf(a + b, n) == CountOf(a, n) + CountOf(b, n)
    decreases |b|
  {
    if |b| == 0 {
      assert a + b == a;
    } else {
      assert (a + b)[..|a + b| - 1] == a + b[..|b| - 1];
      assert (a + b)[|a + b| - 1] == b[|b| - 1];
      CountOfConcat(a, b[..|b| - 1], n);
    }
  }

  /** A batch holds c particles of its own note, the j-th one being the frame's (k0+j)-th. */
  lemma {:induction false} BatchShape(n: int, velocity: real, k0: nat, c: nat, f: Frame)
    requires n >= LowestNote
    ensures var b := Batch(n, velocity, k0, c, f);
      && |b| == c
      && (forall j :: 0 <= j < c ==> b[j] == NewParticle(n, velocity, k0 + j, f))
      && (forall m :: CountOf(b, m) == if m == n then c else 0)
    decreases c
  {
    if c > 0 {
      BatchShape(n, velocity, k0, c - 1, f);
    }
  }

  /** The spawned particle `q` comes from a sounding piano note and carries what the frame gives it. */
  ghost predicate SpawnedFrom(q: Particle, ns: NoteStates, f: Frame)
    requires HasAllNotes(ns)
  {
    && IsPianoNote(q.noteNumber)
    && ns[q.noteNumber].Some?
    && q.velocity == ns[q.noteNumber].value.velocity
    && q.x == f.layout.getX(f.width, q.noteNumber)
    && q.y == f.layout.getY(f.height, q.noteNumber)
    && Hue(q.noteNumber) == Some(q.hue)
    && q.start == f.now
    && q.end == (if f.sustain then f.now + f.settings.sustainDuration
                 else f.now + f.settings.particleDuration * q.velocity)
  }

  /** Spawning for the notes below i yields SpawnCount particles per sounding note. */
  lemma {:induction false} SpawnUpToLength(ns: NoteStates, i: int, f: Frame)
    requires HasAllNotes(ns) && LowestNote <= i <= HighestNote + 1
    ensures |SpawnUpTo(ns, i, f)| == SpawnCount(f.settings) * |ActiveUpTo(ns, i, f.width, f.height, f.layout)|
    decreases i
  {
    if i > LowestNote {
      SpawnUpToLength(ns, i - 1, f);
      var c := SpawnCount(f.settings);
      var prev := SpawnUpTo(ns, i - 1, f);
      assert |SpawnUpTo(ns, i, f)| == |prev| + |NoteBatch(ns, i - 1, |prev|, f)|;
      ActiveUpToStep(ns, i - 1, f.width, f.height, f.layout);
      if ns[i - 1].Some? {
        MulStep(c, |ActiveUpTo(ns, i - 1, f.width, f.height, f.layout)|);
      }
    }
  }

  /** One more note in the projection adds one entry when it sounds, none otherwise. */
  lemma ActiveUpToStep(ns: NoteStates, n: int, width: real, height: real, layout: Layout)
    requires HasAllNotes(ns) && IsPianoNote(n)
    ensures |ActiveUpTo(ns, n + 1, width, height, layout)|
         == |ActiveUpTo(ns, n, width, height, layout)| + if ns[n].Some? then 1 else 0
  {
  }

  lemma MulStep(c: nat, m: nat)
    ensures c * m + c == c * (m + 1)
  {
  }

  /** A note's batch: the j-th particle is the frame's (k0+j)-th, made for that sounding note. */
  lemma NoteBatchParticles(ns: NoteStates, n: int, k0: nat, f: Frame)
    requires HasAllNotes(ns) && IsPianoNote(n)
    ensures var b := NoteBatch(ns, n, k0, f);
      forall j :: 0 <= j < |b| ==> ns[n].Some? && b[j] == NewParticle(n, ns[n].value.velocity, k0 + j, f)
  {
    if ns[n].Some? {
      BatchShape(n, ns[n].value.velocity, k0, SpawnCount(f.settings), f);
    }
  }

  /** Every particle of a note's batch belongs to that note. */
  lemma NoteBatchNotes(ns: NoteStates, n: int, k0: nat, f: Frame)
    requires HasAllNotes(ns) && IsPianoNote(n)
    ensures var b := NoteBatch(ns, n, k0, f);
      forall j :: 0 <= j < |b| ==> b[j].noteNumber == n
  {
    NoteBatchParticles(ns, n, k0, f);
  }

  /** A note's batch holds SpawnCount particles of that note when it sounds, and no other particle. */
  lemma NoteBatchCount(ns: NoteStates, n: int, k0: nat, f: Frame, m: int)
    requires HasAllNotes(ns) && IsPianoNote(n)
    ensures CountOf(NoteBatch(ns, n, k0, f), m) == if m == n && ns[n].Some? then SpawnCount(f.settings) else 0
  {
    if ns[n].Some? {
      BatchShape(n, ns[n].value.velocity, k0, SpawnCount(f.settings), f);
    }
  }

  /** Every particle spawned for the notes below i belongs to one of those notes. */
  lemma {:induction false} SpawnUpToBelow(ns: NoteStates, i: int, f: Frame)
    requires HasAllNotes(ns) && LowestNote <= i <= HighestNote + 1
    ensures forall k :: 0 <= k < |SpawnUpTo(ns, i, f)| ==>
      LowestNote <= SpawnUpTo(ns, i, f)[k].noteNumber < i
    decreases i
  {
    if i > LowestNote {
      SpawnUpToBelow(ns, i - 1, f);
      var prev := SpawnUpTo(ns, i - 1, f);
      var nb := NoteBatch(ns, i - 1, |prev|, f);
      assert SpawnUpTo(ns, i, f) == prev + nb;
      NoteBatchNotes(ns, i - 1, |prev|, f);
      var s := prev + nb;
      forall k | 0 <= k < |s| ensures LowestNote <= s[k].noteNumber < i {
        if k >= |prev| {
          assert s[k].noteNumber == nb[k - |prev|].noteNumber;
        } else {
          assert s[k].noteNumber == prev[k].noteNumber;
        }
      }
    }
  }

  /**
    Every spawned particle comes from a sounding note and carries that note's
    place, hue and velocity, with the frame's birth and end times; the k-th
    one is made from the draws 2k and 2k+1.
   */
  lemma {:induction false} SpawnUpToParticles(ns: NoteStates, i: int, f: Frame)
    requires HasAllNotes(ns) && LowestNote <= i <= HighestNote + 1
    ensures forall k :: 0 <= k < |SpawnUpTo(ns, i, f)| ==>
      && SpawnedFrom(SpawnUpTo(ns, i, f)[k], ns, f)
      && SpawnUpTo(ns, i, f)[k]
         == NewParticle(SpawnUpTo(ns, i, f)[k].noteNumber, SpawnUpTo(ns, i, f)[k].velocity, k, f)
    decreases i
  {
    if i > LowestNote {
      SpawnUpToParticles(ns, i - 1, f);
      var prev := SpawnUpTo(ns, i - 1, f);
      var nb := NoteBatch(ns, i - 1, |prev|, f);
      var s := prev + nb;
      assert SpawnUpTo(ns, i, f) == s;
      NoteBatchParticles(ns, i - 1, |prev|, f);
      forall k | 0 <= k < |s|
        ensures SpawnedFrom(s[k], ns, f)
        ensures s[k] == NewParticle(s[k].noteNumber, s[k].velocity, k, f)
      {
        if k < |prev| {
          assert s[k] == prev[k];
        } else {
          assert s[k] == nb[k - |prev|];
          NewParticleSpawnedFrom(ns, i - 1, k, f);
        }
      }
    }
  }

  /** A particle made for a sounding piano note carries what SpawnedFrom asks of it. */
  lemma NewParticleSpawnedFrom(ns: NoteStates, n: int, k: nat, f: Frame)
    requires HasAllNotes(ns) && IsPianoNote(n) && ns[n].Some?
    ensures var q := NewParticle(n, ns[n].value.velocity, k, f);
      q.noteNumber == n && q.velocity == ns[n].value.velocity && SpawnedFrom(q, ns, f)
  {
    PianoNoteHasHue(n);
  }

  /** The spawned particles come in ascending note order. */
  lemma {:induction false} SpawnUpToAscending(ns: NoteStates, i: int, f: Frame)
    requires HasAllNotes(ns) && LowestNote <= i <= HighestNote + 1
    ensures forall a, b :: 0 <= a <= b < |SpawnUpTo(ns, i, f)| ==>
      SpawnUpTo(ns, i, f)[a].noteNumber <= SpawnUpTo(ns, i, f)[b].noteNumber
    decreases i
  {
    if i > LowestNote {
      SpawnUpToAscending(ns, i - 1, f);
      SpawnUpToBelow(ns, i - 1, f);
      var prev := SpawnUpTo(ns, i - 1, f);
      var nb := NoteBatch(ns, i - 1, |prev|, f);
      assert SpawnUpTo(ns, i, f) == prev + nb;
      NoteBatchNotes(ns, i - 1, |prev|, f);
      var s := prev + nb;
      forall a, b | 0 <= a <= b < |s| ensures s[a].noteNumber <= s[b].noteNumber {
        if b < |prev| {
          assert s[a].noteNumber == prev[a].noteNumber && s[b].noteNumber == prev[b].noteNumber;
        } else if a < |prev| {
          assert s[a].noteNumber == prev[a].noteNumber && s[b].noteNumber == nb[b - |prev|].noteNumber;
        } else {
          assert s[a].noteNumber == nb[a - |prev|].noteNumber && s[b].noteNumber == nb[b - |prev|].noteNumber;
        }
      }
    }
  }

  /** Each sounding note below i gets exactly SpawnCount particles, every other note none. */
  lemma {:induction false} SpawnUpToPerNote(ns: NoteStates, i: int, f: Frame, n: int)
    requires HasAllNotes(ns) && LowestNote <= i <= HighestNote + 1
    ensures CountOf(SpawnUpTo(ns, i, f), n)
         == if LowestNote <= n < i && ns[n].Some? then SpawnCount(f.settings) else 0
    decreases i
  {
    if i > LowestNote {
      SpawnUpToPerNote(ns, i - 1, f, n);
      SpawnUpToCountStep(ns, i, f, n);
    }
  }

  /** One step of the spawn loop adds SpawnCount particles of note i-1 when it sounds, and none of any other note. */
  lemma SpawnUpToCountStep(ns: NoteStates, i: int, f: Frame, n: int)
    requires HasAllNotes(ns) && LowestNote < i <= HighestNote + 1
    ensures CountOf(SpawnUpTo(ns, i, f), n)
         == CountOf(SpawnUpTo(ns, i - 1, f), n) + if n == i - 1 && ns[n].Some? then SpawnCount(f.settings) else 0
  {
    var prev := SpawnUpTo(ns, i - 1, f);
    var nb := NoteBatch(ns, i - 1, |prev|, f);
    assert SpawnUpTo(ns, i, f) == prev + nb;
    CountOfConcat(prev, nb, n);
    NoteBatchCount(ns, i - 1, |prev|, f, n);
  }

  /** One frame's spawn, summed up: its size, its order and its contents. */
  lemma SpawnedShape(ns: NoteStates, f: Frame)
    requires HasAllNotes(ns)
    ensures var s := Spawned(ns, f);
      && |s| == SpawnCount(f.settings) * |ActiveNotes(ns, f.width, f.height, f.layout)|
      && (forall k :: 0 <= k < |s| ==> SpawnedFrom(s[k], ns, f))
      && (forall k :: 0 <= k < |s| ==> s[k] == NewParticle(s[k].noteNumber, s[k].velocity, k, f))
      && (forall a, b :: 0 <= a <= b < |s| ==> s[a].noteNumber <= s[b].noteNumber)
      && (forall n :: CountOf(s, n) == if IsPianoNote(n) && ns[n].Some? then SpawnCount(f.settings) else 0)
  {
    SpawnUpToLength(ns, HighestNote + 1, f);
    SpawnUpToBelow(ns, HighestNote + 1, f);
    SpawnUpToParticles(ns, HighestNote + 1, f);
    SpawnUpToAscending(ns, HighestNote + 1, f);
    forall n ensures CountOf(Spawned(ns, f), n) == if IsPianoNote(n) && ns[n].Some? then SpawnCount(f.settings) else 0 {
      SpawnUpToPerNote(ns, HighestNote + 1, f, n);
    }
  }

  // ---------------------------------------------------------------------------
  // Gravity

  /**
    The division of the gravity formula, by a divisor the guard keeps above
    one; naming it lets the solver compare quotients by their operands.
   */
  function Quotient(num: real, den: real): real
    requires den != 0.0
  {
    num / den
  }

  function DistanceSquared(a: ActiveNote, p: Particle): (d: real)
    ensures d >= 0.0
  {
    (a.x - p.x) * (a.x - p.x) + (a.y - p.y) * (a.y - p.y)
  }

  /** A note pulls on a particle of another note that is farther than one pixel away. */
  predicate Attracts(a: ActiveNote, p: Particle) {
    a.noteNumber != p.noteNumber && DistanceSquared(a, p) > 1.0
  }

  /** The pull of note a on particle p, horizontally and vertically. */
  function PullX(a: ActiveNote, p: Particle, gc: real): real {
    if Attracts(a, p) then Quotient(a.velocity * (gc / 100.0) * (a.x - p.x), DistanceSquared(a, p)) else 0.0
  }

  function PullY(a: ActiveNote, p: Particle, gc: real): real {
    if Attracts(a, p) then Quotient(a.velocity * (gc / 100.0) * (a.y - p.y), DistanceSquared(a, p)) else 0.0
  }

  /** The pull depends on where the particle is and which note it belongs to, not on its velocity. */
  lemma PullDependsOnPlace(a: ActiveNote, p: Particle, q: Particle, gc: real)
    requires p.x == q.x && p.y == q.y && p.noteNumber == q.noteNumber
    ensures PullX(a, p, gc) == PullX(a, q, gc) && PullY(a, p, gc) == PullY(a, q, gc)
  {
    assert DistanceSquared(a, p) == DistanceSquared(a, q);
  }

  /** One (note, particle) pair of the gravity loop. */
  function Attract(a: ActiveNote, p: Particle, gc: real): (r: Particle)
    ensures r == p.(dx := r.dx, dy := r.dy)
    ensures p.noteNumber == a.noteNumber ==> r == p
  {
    if p.noteNumber != a.noteNumber then
      var dx := a.x - p.x;
      var dy := a.y - p.y;
      var distanceSquared := dx * dx + dy * dy;
      if distanceSquared > 1.0 then
        var gravity := gc / 100.0;
        p.(dx := p.dx + Quotient(a.velocity * gravity * dx, distanceSquared),
           dy := p.dy + Quotient(a.velocity * gravity * dy, distanceSquared))
      else p
    else p
  }

  /**
    A pair changes only the particle's velocity, and only when the note
    attracts it; the change is exactly the pull.
   */
  lemma AttractAddsPull(a: ActiveNote, p: Particle, gc: real)
    ensures Attract(a, p, gc) == p.(dx := p.dx + PullX(a, p, gc), dy := p.dy + PullY(a, p, gc))
    ensures !Attracts(a, p) ==> Attract(a, p, gc) == p
  {
    assert DistanceSquared(a, p) == (a.x - p.x) * (a.x - p.x) + (a.y - p.y) * (a.y - p.y);
  }

  /** One note's pass over all particles. */
  function AttractAll(a: ActiveNote, ps: seq<Particle>, gc: real): (r: seq<Particle>)
    ensures |r| == |ps|
    ensures forall k :: 0 <= k < |ps| ==> r[k] == ps[k].(dx := r[k].dx, dy := r[k].dy)
  {
    seq(|ps|, k requires 0 <= k < |ps| => Attract(a, ps[k], gc))
  }

  /** The gravity loops: the notes in order, each over all particles. */
  function Gravitate(active: seq<ActiveNote>, ps: seq<Particle>, gc: real): (r: seq<Particle>)
    ensures |r| == |ps|
    ensures forall k :: 0 <= k < |ps| ==> r[k] == ps[k].(dx := r[k].dx, dy := r[k].dy)
  {
    if |active| == 0 then ps
    else AttractAll(active[|active| - 1], Gravitate(active[..|active| - 1], ps, gc), gc)
  }

  /** The summed pull of all the notes on p. */
  function TotalPullX(active: seq<ActiveNote>, p: Particle, gc: real): real {
    if |active| == 0 then 0.0
    else TotalPullX(active[..|active| - 1], p, gc) + PullX(active[|active| - 1], p, gc)
  }

  function TotalPullY(active: seq<ActiveNote>, p: Particle, gc: real): real {
    if |active| == 0 then 0.0
    else TotalPullY(active[..|active| - 1], p, gc) + PullY(active[|active| - 1], p, gc)
  }

  /**
    Gravity changes no particle's position, note, hue or lifetime; each
    particle's velocity grows by the summed pull of all the notes, measured
    from where it stands.
   */
  lemma {:induction false} GravitateAddsTotalPull(active: seq<ActiveNote>, ps: seq<Particle>, gc: real)
    ensures |Gravitate(active, ps, gc)| == |ps|
    ensures forall k :: 0 <= k < |ps| ==>
      Gravitate(active, ps, gc)[k]
        == ps[k].(dx := ps[k].dx + TotalPullX(active, ps[k], gc), dy := ps[k].dy + TotalPullY(active, ps[k], gc))
    decreases |active|
  {
    if |active| > 0 {
      var init := active[..|active| - 1];
      var a := active[|active| - 1];
      GravitateAddsTotalPull(init, ps, gc);
      forall k | 0 <= k < |ps|
        ensures Gravitate(active, ps, gc)[k]
          == ps[k].(dx := ps[k].dx + TotalPullX(active, ps[k], gc), dy := ps[k].dy + TotalPullY(active, ps[k], gc))
      {
        PullDependsOnPlace(a, Gravitate(init, ps, gc)[k], ps[k], gc);
        AttractAddsPull(a, Gravitate(init, ps, gc)[k], gc);
      }
    }
  }

  /** Pairs of the same note, or closer than the guard distance, add nothing. */
  lemma {:induction false} UnattractedParticleKeepsVelocity(active: seq<ActiveNote>, p: Particle, gc: real)
    requires forall j :: 0 <= j < |active| ==> !Attracts(active[j], p)
    ensures TotalPullX(active, p, gc) == 0.0 && TotalPullY(active, p, gc) == 0.0
    decreases |active|
  {
    if |active| > 0 {
      UnattractedParticleKeepsVelocity(active[..|active| - 1], p, gc);
    }
  }

  /**
    A particle that no note attracts (each note is its own note, or within
    distance 1 of it) leaves the gravity step exactly as it entered.
   */
  lemma GravityGuardLeavesParticle(active: seq<ActiveNote>, ps: seq<Particle>, gc: real, k: int)
    requires 0 <= k < |ps|
    requires forall j :: 0 <= j < |active| ==> !Attracts(active[j], ps[k])
    ensures Gravitate(active, ps, gc)[k] == ps[k]
  {
    GravitateAddsTotalPull(active, ps, gc);
    UnattractedParticleKeepsVelocity(active, ps[k], gc);
  }

  // ---------------------------------------------------------------------------
  // The whole frame

  /** The particle population after one tick at f.now, the previous one having been at prevTick. */
  function FrameStep(ps: seq<Particle>, prevTick: real, ns: NoteStates, f: Frame): (r: seq<Particle>)
    requires HasAllNotes(ns)
    ensures |r| == |Survivors(ps, f.now - prevTick, f.now)| + |Spawned(ns, f)|
  {
    Gravitate(ActiveNotes(ns, f.width, f.height, f.layout),
              Survivors(ps, f.now - prevTick, f.now) + Spawned(ns, f),
              f.settings.gravitationalConstant)
  }

  /**
    The new population is the surviving old particles, in their old order,
    followed by SpawnCount particles for each sounding note, ascending; gravity
    changes only their velocities.
   */
  lemma FrameStepPopulation(ps: seq<Particle>, prevTick: real, ns: NoteStates, f: Frame)
    requires HasAllNotes(ns)
    ensures var next := FrameStep(ps, prevTick, ns, f);
      var base := Survivors(ps, f.now - prevTick, f.now) + Spawned(ns, f);
      && |next| == |Survivors(ps, f.now - prevTick, f.now)|
                   + SpawnCount(f.settings) * |ActiveNotes(ns, f.width, f.height, f.layout)|
      && |next| == |base|
      && (forall k :: 0 <= k < |next| ==> next[k] == base[k].(dx := next[k].dx, dy := next[k].dy))
  {
    var active := ActiveNotes(ns, f.width, f.height, f.layout);
    var base := Survivors(ps, f.now - prevTick, f.now) + Spawned(ns, f);
    var next := Gravitate(active, base, f.settings.gravitationalConstant);
    assert next == FrameStep(ps, prevTick, ns, f);
    GravitateAddsTotalPull(active, base, f.settings.gravitationalConstant);
    SpawnUpToLength(ns, HighestNote + 1, f);
  }

  /** With no particle expiring, a frame adds exactly SpawnCount particles per sounding note. */
  lemma FrameStepGrowth(ps: seq<Particle>, prevTick: real, ns: NoteStates, f: Frame)
    requires HasAllNotes(ns)
    requires forall k :: 0 <= k < |ps| ==> f.now < ps[k].end
    ensures |FrameStep(ps, prevTick, ns, f)|
         == |ps| + SpawnCount(f.settings) * |ActiveNotes(ns, f.width, f.height, f.layout)|
  {
    FrameStepPopulation(ps, prevTick, ns, f);
    AllLiveSurvive(ps, f.now - prevTick, f.now);
  }
}
