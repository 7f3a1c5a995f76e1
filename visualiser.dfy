/**
  The LightMidi component as an object: its tunable fields, the canvas size,
  the note-state store and the particle population, with the MIDI message
  handler and the per-frame tick as methods that update them in place.
 */
module Visualiser {
  import opened Wrappers
  import opened Geometry
  import opened NoteStore
  import opened Simulation

  class LightMidi {
    var gravitationalConstant: real
    var particlesPerFrame: int
    var particleDuration: real
    var sustainDuration: real
    var startVelocity: real
    var canvasWidth: real
    var canvasHeight: real
    var noteNumbers: seq<int>
    var noteState: NoteStates
    var sustainState: map<int, bool>
    var sustain: bool
    var notes: seq<seq<Byte>>
    var particles: seq<Particle>
    var prevTick: real

    /** The part of the state that onMessage reads and writes. */
    function CurrentStore(): Store
      reads this
    {
      Store(noteState, sustainState, sustain, notes)
    }

    function CurrentSettings(): Settings
      reads this
    {
      Settings(gravitationalConstant, particlesPerFrame, particleDuration, sustainDuration, startVelocity)
    }

    /** The frame a tick at `now` sees. */
    function FrameAt(now: real, layout: Layout, random: nat -> real): Frame
      reads this
    {
      Frame(now, canvasWidth, canvasHeight, sustain, CurrentSettings(), layout, random)
    }

    ghost predicate Valid()
      reads this
    {
      Covers(CurrentStore())
    }

    /**
      Set-up and mount: the default settings, the canvas size, every piano note
      silent and unsustained (the initialisation loop), no particles, and the
      first tick time taken at mount.
     */
    constructor (width: real, height: real, now: real)
      ensures Valid()
      ensures CurrentStore() == InitialStore()
      ensures noteNumbers == seq(HighestNote - LowestNote + 1, k => LowestNote + k)
      ensures CurrentSettings() == Settings(400.0, 7, 3000.0, 5000.0, 26.0)
      ensures canvasWidth == width && canvasHeight == height
      ensures particles == [] && prevTick == now
    {
      gravitationalConstant := 400.0;
      particlesPerFrame := 7;
      particleDuration := 3000.0;
      sustainDuration := 5000.0;
      startVelocity := 26.0;
      canvasWidth := width;
      canvasHeight := height;
      var rawNoteState: NoteStates := map[];
      var rawSustainState: map<int, bool> := map[];
      var numbers: seq<int> := [];
      var i := LowestNote;
      while i <= HighestNote
        invariant LowestNote <= i <= HighestNote + 1
        invariant numbers == seq(i - LowestNote, k => LowestNote + k)
        invariant rawNoteState == map k | k in PianoNotes && k < i :: None
        invariant rawSustainState == map k | k in PianoNotes && k < i :: false
      {
        numbers := numbers + [i];
        rawNoteState := rawNoteState[i := None];
        rawSustainState := rawSustainState[i := false];
        i := i + 1;
      }
      assert rawNoteState == map k | k in PianoNotes :: None;
      assert rawSustainState == map k | k in PianoNotes :: false;
      noteNumbers := numbers;
      noteState := rawNoteState;
      sustainState := rawSustainState;
      sustain := false;
      notes := [];
      particles := [];
      prevTick := now;
    }

    /** The resize listener: the canvas takes the new viewport size. */
    method Resize(width: real, height: real)
      modifies this`canvasWidth, this`canvasHeight
      ensures canvasWidth == width && canvasHeight == height
    {
      canvasWidth := width;
      canvasHeight := height;
    }

    /** activeNotes: the push loop over the piano notes. */
    method ActiveNotes(layout: Layout) returns (active: seq<ActiveNote>)
      requires Valid()
      ensures active == Simulation.ActiveNotes(noteState, canvasWidth, canvasHeight, layout)
    {
      active := [];
      var i := LowestNote;
      while i <= HighestNote
        invariant LowestNote <= i <= HighestNote + 1
        invariant active == ActiveUpTo(noteState, i, canvasWidth, canvasHeight, layout)
      {
        var state := noteState[i];
        if state != None {
          active := active + [ActiveNote(i, state.value.velocity, layout.getX(canvasWidth, i), layout.getY(canvasHeight, i))];
        }
        i := i + 1;
      }
    }

    /** onMessage: decode one MIDI message event received at `now` and update the store. */
    method OnMessage(data: Option<seq<Byte>>, now: real)
      requires Valid()
      modifies this`noteState, this`sustainState, this`sustain, this`notes
      ensures Valid()
      ensures CurrentStore() == Receive(old(CurrentStore()), data, now)
    {
      if data.Some? {
        var d := data.value;
        if |d| == 1 && d[0] == 248 {
          return;
        }
        if |d| == 1 && d[0] == 254 {
          return;
        }
        if |d| == 3 && d[0] == 144 && d[2] != 127 {
          if d[2] == 0 {
            noteState := noteState[d[1] := None];
          } else {
            noteState := noteState[d[1] := Some(Strike(d[2] as real / 127.0, now))];
            if sustain {
              sustainState := sustainState[d[1] := true];
            }
          }
          return;
        }
        if |d| == 3 && ((d[0] == 176 && (d[2] == 0 || d[2] == 127)) || (d[0] == 144 && d[2] == 127)) {
          sustain := d[2] == 127;
          if !sustain {
            ReleaseSustained();
          }
        }
        notes := notes + [d];
      }
    }

    /** The pedal-release loop of onMessage: every piano note loses its sustain flag. */
    method ReleaseSustained()
      modifies this`sustainState
      ensures sustainState == ReleaseAll(old(sustainState))
    {
      var i := LowestNote;
      while i <= HighestNote
        invariant LowestNote <= i <= HighestNote + 1
        invariant sustainState == old(sustainState) + map k | k in PianoNotes && k < i :: false
      {
        sustainState := sustainState[i := false];
        i := i + 1;
      }
      assert sustainState == ReleaseAll(old(sustainState));
    }

    /**
      tick: advance and expire the particles, spawn for the sounding notes,
      apply gravity, and remember the time. `random(k)` is the k-th
      Math.random() draw of this frame. Drawing on the canvas is not modelled.
     */
    method Tick(now: real, layout: Layout, random: nat -> real)
      requires Valid()
      modifies this`particles, this`prevTick
      ensures particles == FrameStep(old(particles), old(prevTick), noteState, FrameAt(now, layout, random))
      ensures prevTick == now
    {
      var f := FrameAt(now, layout, random);
      var dt := now - prevTick;
      var alive := AdvanceAndExpire(particles, dt, now);
      alive := SpawnParticles(alive, noteState, f);
      var active := ActiveNotes(layout);
      alive := ApplyGravity(active, alive, gravitationalConstant);
      prevTick := now;
      particles := alive;
    }
  }

  /** The spawn loops of tick: particlesPerFrame particles per sounding note, appended to `alive`. */
  method SpawnParticles(alive: seq<Particle>, noteState: NoteStates, f: Frame) returns (grown: seq<Particle>)
    requires HasAllNotes(noteState)
    ensures grown == alive + Spawned(noteState, f)
  {
    grown := alive;
    var drawn: nat := 0;
    var n := LowestNote;
    while n <= HighestNote
      invariant LowestNote <= n <= HighestNote + 1
      invariant grown == alive + SpawnUpTo(noteState, n, f)
      invariant drawn == |SpawnUpTo(noteState, n, f)|
    {
      ghost var prev := SpawnUpTo(noteState, n, f);
      grown, drawn := SpawnForNote(grown, drawn, noteState, n, f);
      assert grown == alive + (prev + NoteBatch(noteState, n, |prev|, f));
      n := n + 1;
    }
  }

  /**
    One note of the spawn loop: when the note sounds, particlesPerFrame
    particles, the first being the frame's `drawn`-th, each taking two random
    draws; nothing when it is silent.
   */
  method SpawnForNote(alive: seq<Particle>, drawn: nat, noteState: NoteStates, n: int, f: Frame)
    returns (grown: seq<Particle>, drawn': nat)
    requires HasAllNotes(noteState) && IsPianoNote(n)
    ensures grown == alive + NoteBatch(noteState, n, drawn, f)
    ensures drawn' == drawn + |NoteBatch(noteState, n, drawn, f)|
  {
    grown, drawn' := alive, drawn;
    var state := noteState[n];
    if state.Some? {
      PianoNoteHasHue(n);
      var velocity := state.value.velocity;
      var j := 0;
      while j < f.settings.particlesPerFrame
        invariant 0 <= j && (j <= f.settings.particlesPerFrame || j == 0)
        invariant grown == alive + Batch(n, velocity, drawn, j, f)
        invariant drawn' == drawn + j
      {
        var dxDraw := f.random(2 * drawn');
        var dyDraw := f.random(2 * drawn' + 1);
        var particle := Particle(
          noteNumber := n,
          velocity := velocity,
          x := f.layout.getX(f.width, n),
          y := f.layout.getY(f.height, n),
          dx := (f.settings.startVelocity / 50.0) * (dxDraw - 0.5),
          dy := (f.settings.startVelocity / 50.0) * (dyDraw - 0.5),
          hue := Hue(n).value,
          start := f.now,
          end := if f.sustain then f.now + f.settings.sustainDuration
                 else f.now + f.settings.particleDuration * velocity);
        assert particle == NewParticle(n, velocity, drawn', f);
        grown := grown + [particle];
        drawn' := drawn' + 1;
        j := j + 1;
      }
    } else {
      assert grown == alive + [];
    }
  }

  /** The first loop of tick: move every particle, and keep those with now < end. */
  method AdvanceAndExpire(particles: seq<Particle>, dt: real, now: real) returns (alive: seq<Particle>)
    ensures alive == Survivors(particles, dt, now)
  {
    alive := [];
    var i := 0;
    while i < |particles|
      invariant 0 <= i <= |particles|
      invariant alive == Survivors(particles[..i], dt, now)
    {
      var particle := particles[i];
      particle := particle.(x := particle.x + particle.dx * dt, y := particle.y + particle.dy * dt);
      assert particle == Advance(particles[i], dt);
      if now < particle.end {
        alive := alive + [particle];
      }
      assert particles[..i + 1][..i] == particles[..i];
      i := i + 1;
    }
    assert particles[..|particles|] == particles;
  }

  /** The gravity loops of tick: each active note in turn pulls on every particle. */
  method ApplyGravity(active: seq<ActiveNote>, particles: seq<Particle>, gravitationalConstant: real)
    returns (alive: seq<Particle>)
    ensures alive == Gravitate(active, particles, gravitationalConstant)
  {
    alive := particles;
    var a := 0;
    while a < |active|
      invariant 0 <= a <= |active|
      invariant alive == Gravitate(active[..a], particles, gravitationalConstant)
    {
      var note := active[a];
      ghost var before := alive;
      alive := PullTowards(note, alive, gravitationalConstant);
      assert alive == AttractAll(note, before, gravitationalConstant);
      assert active[..a + 1][..a] == active[..a];
      a := a + 1;
    }
    assert active[..|active|] == active;
  }

  /** The inner gravity loop of tick: one note pulls on every particle in turn. */
  method PullTowards(note: ActiveNote, particles: seq<Particle>, gravitationalConstant: real)
    returns (alive: seq<Particle>)
    ensures alive == AttractAll(note, particles, gravitationalConstant)
  {
    alive := particles;
    var k := 0;
    while k < |alive|
      invariant 0 <= k <= |alive| == |particles|
      invariant forall t :: 0 <= t < k ==> alive[t] == Attract(note, particles[t], gravitationalConstant)
      invariant forall t :: k <= t < |alive| ==> alive[t] == particles[t]
    {
      var particle := alive[k];
      assert particle == particles[k];
      if particle.noteNumber != note.noteNumber {
        var dx := note.x - particle.x;
        var dy := note.y - particle.y;
        var distanceSquared := dx * dx + dy * dy;
        if distanceSquared > 1.0 {
          var gravity := gravitationalConstant / 100.0;
          particle := particle.(dx := particle.dx + note.velocity * gravity * dx / distanceSquared,
                                dy := particle.dy + note.velocity * gravity * dy / distanceSquared);
          alive := alive[k := particle];
        }
      }
      assert alive[k] == Attract(note, particles[k], gravitationalConstant);
      k := k + 1;
    }
  }
}
