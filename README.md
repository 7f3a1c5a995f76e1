# LightMidi in Dafny

This project models the core of a browser MIDI visualiser. Each piano key
that sounds emits coloured particles at its own place on a circular layout.
Every sounding key pulls the particles of the other keys towards itself, and
particles fade out after a fixed lifetime. The project has two parts, one per
source file.

**`LightMidi`**, the visualiser component:
- the hue of a note, from its pitch class and its rank on the circle of
  fifths (`getNoteRange`, `getDistance`, `getHue` and the distance table);
- the MIDI message handler `onMessage`, a small state machine over the
  per-note strike records, the per-note sustain flags, the sustain pedal
  and the message log;
- the loop that sets up the note state;
- the derived list of active notes;
- the per-frame tick, which advances and expires particles, spawns new ones
  and applies gravity.

**`LightApp`**, the device panel:
- `updatePorts`, which reconciles the listed MIDI inputs with a fresh
  enumeration of the devices;
- the "hide controls" flag.

Modules, one per file:

- `Wrappers`: `Option`.
- `Geometry`: the note range, the circle-of-fifths table, the JavaScript
  remainder and the hue, with the table's bijection and circle-of-fifths
  properties.
- `NoteStore`: the store `onMessage` works on, as a value, and `Receive`,
  its effect as a function. The lemmas cover each message kind.
- `Simulation`: one frame of the particle simulation over exact reals, as
  functions: `ActiveNotes`, `Survivors`, `Spawned`, `Gravitate` and
  `FrameStep`. The lemmas give the frame's population, its order, its
  contents and the closed form of gravity.
- `Visualiser`: class `LightMidi`. Its fields are the component's settings,
  canvas size, note state and particles. Its constructor runs the
  initialisation loop. `OnMessage`, `Tick` and `Resize` update the fields
  in place, with the source's loops; `ActiveNotes` runs the push loop and
  returns the list. The
  constructor, `OnMessage`, `ReleaseSustained`, `ActiveNotes` and `Tick` are
  each proved equal to the matching function of `NoteStore` or `Simulation`;
  `Resize` only stores the new canvas size.
- `Ports`: the reconciliation `Reconcile` as a function, and its properties:
  - membership;
  - the id set;
  - order;
  - distinct ids;
  - dropping vanished inputs;
  - idempotence.
- `Devices`: class `LightApp`. `UpdatePorts` runs the source's set-building
  and push loops and replaces the list, proved equal to `Reconcile`.
  `KeyPress` and `HideControls` toggle `connectHidden`.

Parameters stand in for what the code gets from the platform:
- the clock (`performance.now()`) is the `now` argument;
- the `Math.random()` draws of a frame are `random: nat -> real`, indexed
  by draw number: the k-th particle spawned in a frame uses draws 2k (its
  dx) and 2k+1 (its dy), in the source's order;
- `getX`/`getY` are the two functions of a `Layout`;
- the device enumeration is a sequence of `MidiInput` records.

Some behaviours of the code differ from a full MIDI 1.0 decoder; the model
follows the code:
- A note-off message (status 128) is never decoded. It only goes to the
  log, and the note keeps sounding (`NoteStore.NoteOffStatusIsOnlyLogged`).
  Notes are silenced only by a note-on with velocity 0.
- A note-on with velocity 127 acts as a sustain-pedal press, exactly like
  control change 176 with value 127. It records no strike.
- Only channel 1 is decoded. Note-ons with status 145-159 and control
  changes with status 177-191 are only logged
  (`NoteStore.DecoderReadsChannelOneOnly`).
- Any controller number at value 0 or 127 is the sustain pedal, not only
  controller 64: `[176, 1, 127]` (the modulation wheel at full) presses it.
  The controller number, the second byte, is never read
  (`NoteStore.AnyControllerIsThePedal`).
- A controller value between 1 and 126 is never decoded; such a message is
  only logged.

The per-note sustain flags also differ from what the name suggests. A
note's sustain flag is set when the note is struck while the pedal is down,
not when the note is released.

## Model

| member | source | states |
|---|---|---|
| Geometry.NoteRange | src/LightMidi.tsx:29-31 | A piano note's position lies in [0, 1], with 0 at A0 (21) and 1 at C8 (108). |
| Geometry.NoteRangeStrictlyIncreasing | src/LightMidi.tsx:29-31 | The position is strictly increasing in the note number, so no two notes share a position. |
| Geometry.RelativeToA | src/LightMidi.tsx:49 | The pitch class relative to A uses JavaScript's truncating `%`. It equals (n-21) mod 12 from A0 up. Below A0 it is non-positive, and zero exactly when the note is a whole number of octaves below A0. |
| Geometry.Distance | src/LightMidi.tsx:33-52 | The table lookup is defined exactly when the note is at or above A0, or a whole number of octaves below it. When defined it is a rank in 0..11. |
| Geometry.Hue | src/LightMidi.tsx:53-55 | The hue is defined exactly when the distance is (otherwise it is NaN). It lies in [0, 11/12]. |
| Geometry.DistanceTableIsBijection | src/LightMidi.tsx:33-46 | The table's keys are exactly 0..11, its values are exactly 0..11, and distinct keys have distinct values. |
| Geometry.DistanceTableIsCircleOfFifths | src/LightMidi.tsx:33-46 | The rank of pitch class k is 7k mod 12, and 7 times the rank mod 12 gives k back. So each entry is one fifth from the previous one. |
| Geometry.PianoNoteHasHue | src/LightMidi.tsx:48-55 | Every note 21..108 has a hue, and it lies in [0, 11/12]. |
| Geometry.HueOctaveInvariant | src/LightMidi.tsx:48-55 | From A0 up, a note and the note an octave above it have the same pitch class and the same hue. |
| Geometry.HueOfPitchClass | src/LightMidi.tsx:48-55 | Two notes at or above A0 with the same pitch class relative to A get the same hue. |
| NoteStore.InitialStore | src/LightMidi.tsx:181-192 | After set-up every piano note is silent and unsustained, the pedal is up and the log is empty. |
| NoteStore.ReleaseAll | src/LightMidi.tsx:247-251 | The pedal-release loop: every piano note gets an entry with sustain false, and every other key keeps its entry and value. |
| NoteStore.Receive | src/LightMidi.tsx:216-255 | Every message keeps an entry for every piano note in both records. Every message keeps every existing key of both records. The log is unchanged or grows by exactly the message. |
| NoteStore.IgnoredMessagesChangeNothing | src/LightMidi.tsx:217-225 | A null payload and the one-byte messages 248 and 254 change nothing, not even the log. |
| NoteStore.NoteOnRecordsStrike | src/LightMidi.tsx:226-238 | A note-on [144, n, v] with v not 0 or 127 records the strike (v/127, now) for note n. For a data byte below 128 the velocity is strictly between 0 and 1. The note is marked sustained exactly when the pedal is down. The pedal and the log are unchanged. |
| NoteStore.NoteOnZeroSilences | src/LightMidi.tsx:226-228 | A note-on with velocity 0 sets note n's record to null. The note record is otherwise exactly the old one, so no other note changes and no other key appears. The sustain flags, the pedal and the log are as they were. |
| NoteStore.SustainMessageSetsPedal | src/LightMidi.tsx:240-253 | A sustain message (176 with 0 or 127, or 144 with 127) sets the pedal to "data2 is 127". Releasing the pedal turns the flags into ReleaseAll of the old ones: every piano note's flag is cleared and other keys are left alone. Pressing it leaves the flags alone. Note state is untouched and the message is logged. |
| NoteStore.OtherMessagesAreOnlyLogged | src/LightMidi.tsx:217-253 | Any other non-null message is appended to the log and changes nothing else. |
| NoteStore.DecoderReadsChannelOneOnly | src/LightMidi.tsx:226-253 | A note-on or control change on channels 2-16 is only logged. |
| NoteStore.AnyControllerIsThePedal | src/LightMidi.tsx:240-253 | Any controller number at 127 presses the pedal and at 0 releases it. A controller value 1..126 is only logged. |
| NoteStore.NoteOffStatusIsOnlyLogged | src/LightMidi.tsx:217-253 | A note-off [128, n, v] is only logged: the code never silences a note on status 128. |
| NoteStore.NoteMessageIdempotent | src/LightMidi.tsx:226-238 | Sending the same note message twice at the same moment leaves the same store as sending it once. |
| NoteStore.LaterStrikeOverwrites | src/LightMidi.tsx:229-236 | Two strikes of one note leave the store the second strike alone would leave: the last write wins. |
| Simulation.ActiveUpTo | src/LightMidi.tsx:201-211 | The push loop of activeNotes over the notes below i; it holds at most one entry per note. |
| Simulation.ActiveNotes | src/LightMidi.tsx:194-213 | activeNotes over the whole piano range; it holds at most 88 entries. |
| Simulation.ActiveUpToExtends | src/LightMidi.tsx:201-211 | One loop step keeps the earlier entries and appends one entry for the note exactly when it sounds. |
| Simulation.ActiveUpToAscending | src/LightMidi.tsx:201-211 | The projection of the notes below i is strictly ascending and mentions only notes below i. |
| Simulation.ActiveUpToSound | src/LightMidi.tsx:201-211 | Every entry is a sounding piano note with its velocity and layout position. |
| Simulation.ActiveUpToComplete | src/LightMidi.tsx:201-211 | Every sounding note below i has an entry. |
| Simulation.ActiveUpToCharacterised | src/LightMidi.tsx:194-213 | The projection of the notes below i is strictly ascending. It lists exactly the sounding piano notes below i, each with its velocity and its layout position. |
| Simulation.ActiveNotesCharacterised | src/LightMidi.tsx:194-213 | activeNotes lists every sounding piano note exactly once, in ascending order, with its velocity and position, and nothing else. |
| Simulation.Survivors | src/LightMidi.tsx:98-104 | The first loop of tick: never more survivors than particles, and every survivor is alive at now (now < end). |
| Simulation.Advance | src/LightMidi.tsx:99-100 | Advancing moves only the position. A zero time step is the identity. |
| Simulation.SurvivorsOfConcat | src/LightMidi.tsx:98-104 | Expiry keeps the order: the survivors of a + b are those of a followed by those of b. |
| Simulation.SurvivorsAreLiveParticles | src/LightMidi.tsx:98-104 | Every particle with now < end survives, moved. Every survivor is a moved old particle with now < end. There are never more survivors than particles. |
| Simulation.AllLiveSurvive | src/LightMidi.tsx:98-104 | If no particle has reached its end time, all of them survive. |
| Simulation.NewParticle | src/LightMidi.tsx:109-125 | The object literal of one spawned particle; its hue is the note's hue, in [0, 11/12]. |
| Simulation.Batch | src/LightMidi.tsx:108-126 | The inner spawn loop for one note: exactly c particles. |
| Simulation.NoteBatch | src/LightMidi.tsx:106-127 | One note of the outer spawn loop: SpawnCount particles when the note sounds, none when it is null. |
| Simulation.SpawnCount | src/LightMidi.tsx:108 | The inner spawn loop runs particlesPerFrame times, or not at all when that is negative. |
| Simulation.BatchShape | src/LightMidi.tsx:108-126 | The batch for a note holds c particles of that note and of no other. Its j-th particle is the frame's (k0+j)-th. |
| Simulation.SpawnUpToStep | src/LightMidi.tsx:105-128 | Going from note n to n+1 appends a full batch when note n sounds, and nothing when it is silent. |
| Simulation.SpawnUpToCountStep | src/LightMidi.tsx:105-128 | One step of the outer loop adds SpawnCount particles of note i-1 when it sounds, and none of any other note. |
| Simulation.SpawnUpToLength | src/LightMidi.tsx:105-128 | The notes below i spawn particlesPerFrame particles for each sounding note among them. |
| Simulation.SpawnUpToBelow | src/LightMidi.tsx:105-128 | Every particle spawned for the notes below i belongs to one of those notes. |
| Simulation.SpawnUpToParticles | src/LightMidi.tsx:105-128 | Every spawned particle belongs to a sounding piano note. It carries that note's velocity, position and hue, starts now, and ends after the sustain duration (pedal down) or the particle duration times the velocity. The k-th one takes random draws 2k and 2k+1. |
| Simulation.SpawnUpToAscending | src/LightMidi.tsx:105-128 | Spawned particles come in ascending note order. |
| Simulation.SpawnUpToPerNote | src/LightMidi.tsx:105-128 | Each sounding note below i gets exactly particlesPerFrame particles, and every other note gets none. |
| Simulation.SpawnedShape | src/LightMidi.tsx:105-128 | For one frame's spawn: its size is particlesPerFrame times the number of active notes. Its contents, its ascending order and its per-note counts are as above. |
| Simulation.Attract | src/LightMidi.tsx:131-147 | One (note, particle) pair of the gravity loops changes at most the particle's dx and dy, and nothing when the particle is of the same note. |
| Simulation.AttractAll | src/LightMidi.tsx:131-148 | One note's inner forEach keeps the number of particles and changes only their velocities. |
| Simulation.Gravitate | src/LightMidi.tsx:129-149 | The nested forEach over the active notes keeps the number of particles and changes only their velocities. |
| Simulation.PullDependsOnPlace | src/LightMidi.tsx:131-145 | The pull on a particle depends on its position and note only, not on its current velocity. |
| Simulation.AttractAddsPull | src/LightMidi.tsx:131-145 | One note acting on one particle changes only dx and dy, each by the pull. There is no change when the particle is of the same note or within distance 1. |
| Simulation.GravitateAddsTotalPull | src/LightMidi.tsx:129-149 | Gravity keeps every particle's position, note, hue and lifetime. It adds to each particle's velocity the sum, over all active notes, of their pulls measured at that particle's position. |
| Simulation.GravityGuardLeavesParticle | src/LightMidi.tsx:131-135 | A particle that no active note attracts leaves the gravity loops exactly as it entered. |
| Simulation.FrameStep | src/LightMidi.tsx:92-162 | One tick's population; it has as many particles as survivors plus spawned ones. |
| Simulation.FrameStepPopulation | src/LightMidi.tsx:92-162 | After a tick the population is the survivors, in their old order, followed by particlesPerFrame particles per sounding note. It has their count, and gravity changes only their velocities. |
| Simulation.FrameStepGrowth | src/LightMidi.tsx:92-162 | If no particle expires, a tick adds exactly particlesPerFrame particles per active note. |
| Visualiser.LightMidi.constructor | src/LightMidi.tsx:75-191 | Default settings 400/7/3000/5000/26, the given canvas size, no particles and the first tick time. The init loop over 21..108 leaves every note silent and unsustained, and noteNumbers is 21..108. |
| Visualiser.LightMidi.Resize | src/LightMidi.tsx:172-175 | The canvas takes the new viewport size. |
| Visualiser.LightMidi.ActiveNotes | src/LightMidi.tsx:194-213 | The push loop over 21..108 yields activeNotes (Simulation.ActiveNotes). |
| Visualiser.LightMidi.OnMessage | src/LightMidi.tsx:216-255 | The handler updates the fields in place to exactly Receive of the old store, and keeps every piano note in both records. |
| Visualiser.LightMidi.ReleaseSustained | src/LightMidi.tsx:247-251 | The release loop sets every piano note's sustain flag to false and no other key changes. |
| Visualiser.LightMidi.Tick | src/LightMidi.tsx:92-162 | The tick replaces the particles with FrameStep of the old particles and the time since the previous tick, and records now as the previous tick. |
| Visualiser.AdvanceAndExpire | src/LightMidi.tsx:98-104 | The first loop of tick yields exactly Survivors. |
| Visualiser.SpawnParticles | src/LightMidi.tsx:105-128 | The spawn loops append exactly Spawned to the survivors. |
| Visualiser.SpawnForNote | src/LightMidi.tsx:106-127 | For one note, the inner loop appends its batch, or nothing when it is silent. The draw counter advances by the batch's size. |
| Visualiser.ApplyGravity | src/LightMidi.tsx:129-149 | The outer gravity forEach, over the active notes in order, yields exactly Gravitate. |
| Visualiser.PullTowards | src/LightMidi.tsx:131-148 | The inner forEach applies one note's attraction to every particle, in place. |
| Ports.Select | src/LightApp.tsx:83-96 | One filtering pass of updatePorts: no longer than its input, and every kept entry comes from the input with its id in (or out of) the given set. |
| Ports.Reconcile | src/LightApp.tsx:72-102 | updatePorts' new list: at most the old plus the enumerated entries, and every id in it is enumerated. |
| Ports.SelectMembers | src/LightApp.tsx:83-96 | A filtering pass keeps exactly the entries whose id is (or is not) in the given set. |
| Ports.SelectOfConcat | src/LightApp.tsx:83-96 | A filtering pass keeps the order of its input. |
| Ports.SelectDistinct | src/LightApp.tsx:83-96 | A filtering pass keeps ids distinct. |
| Ports.SelectIds | src/LightApp.tsx:83-96 | The ids kept are the input's ids intersected with, or minus, the given set. |
| Ports.ReconcileMembers | src/LightApp.tsx:72-102 | An input is in the new list exactly when it is an old entry whose id is still enumerated, or an enumerated input whose id was not listed. |
| Ports.ReconcileIds | src/LightApp.tsx:72-102 | The new list's ids are exactly the enumerated ids. |
| Ports.ReconcileDropsVanished | src/LightApp.tsx:83-87 | No entry of the new list has the id of an old entry that is no longer enumerated. |
| Ports.ReconcileOrder | src/LightApp.tsx:82-96 | The entries with old ids are the kept old records in their old order. The entries with new ids are the new inputs in enumeration order. |
| Ports.ReconcileDistinct | src/LightApp.tsx:72-102 | With distinct ids on both sides, the new list has distinct ids and one entry per enumerated id. |
| Ports.DistinctIdsCount | src/LightApp.tsx:97-101 | A list with distinct ids has as many entries as ids, so the final length is the number of enumerated devices. |
| Ports.ReconcileIdempotent | src/LightApp.tsx:72-102 | Reconciling again with the same enumeration changes nothing. |
| Devices.LightApp.constructor | src/LightApp.tsx:9-10 | The device list starts empty and the controls start shown. |
| Devices.LightApp.UpdatePorts | src/LightApp.tsx:72-102 | The set-building and push loops, then the splice, leave the list equal to Reconcile of the old list and the enumeration. |
| Devices.LightApp.KeyPress | src/LightApp.tsx:13-17 | The key 'c' sets connectHidden to false, and every other key leaves it unchanged. |
| Devices.LightApp.HideControls | src/LightApp.tsx:116 | The hide button sets connectHidden to true. |
| Devices.CollectIds | src/LightApp.tsx:73-81 | Adding each entry's id to an empty set yields exactly the list's id set. |

## Left out

- getX/getY (src/LightMidi.tsx:9-28): a cosine and sine placement of each note. The model takes them as the parameter functions of a `Layout`, so no property of the circular layout is proved.
- Numbers are exact reals, not IEEE doubles. Rounding, infinities and NaN are not modelled. getHue yields NaN below A0 unless the note is a whole number of octaves below it; the source never calls it there, and the model gives `None`. The brightness `age` of the drawing step is 0/0 for a particle whose lifetime is zero; drawing is left out, so this is not modelled either.
- The mount-time guard (src/LightMidi.tsx:80-89): when the canvas or its 2D context is missing, the source shows an alert and never starts the tick loop. The model assumes a drawing surface exists; it does not model the alert or a component whose tick never runs.
- Math.random() is a parameter, a sequence of draws per frame. Nothing is assumed about its range.
- The drawing of each frame (src/LightMidi.tsx:150-159) is left out: clearRect, brightness by age, rect and fill. It changes no state.
- Browser plumbing is not modelled. requestAnimationFrame and cancelAnimationFrame, the event listeners' registration and removal (src/LightMidi.tsx:164-180, 256-261) and the reading of the viewport size are out. performance.now() is the `now` parameter of each call.
- The Gooey reactivity is not modelled: `calc`, `field`, `model`, `collection`, and the JSX with its sliders and debug panel. Settings are plain fields of `LightMidi`. `activeNotes` is recomputed on demand, not cached.
- The async MIDI access request, the statechange listener, the Start button's loading/initialized flags, device selection by radio button, the fullscreen request and the alerts (src/LightApp.tsx) are platform calls or view state with no logic to prove.
- src/LightMain.tsx is not part of this model: it only looks up a DOM node and mounts the app.
- Particles are immutable values in a sequence, not mutable objects. tick updates each particle in place, but no alias to a particle escapes the frame, so the sequence fully describes the state. Aliasing and object identity are therefore not modelled.
- MIDI input objects are records of their id, name and manufacturer. Two listings of one device compare equal only when all three fields match.
- Simulation.SpawnCount: particlesPerFrame is an integer. A fractional slider value, which would make the inner loop run ceil(value) times, is not modelled.
- A `sustainState` field is kept and updated as in the source, but no operation of the core reads it. Particle lifetimes depend only on the global pedal at spawn time.
