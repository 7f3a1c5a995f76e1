/**
  The note-state store of the visualiser and the decoder of incoming MIDI 1.0
  messages (onMessage), as a pure function from the old store to the new one.
  Status bytes used: 0x90 = 144 note-on, 0xB0 = 176 control change,
  0xF8 = 248 timing clock, 0xFE = 254 active sensing.
 */
module NoteStore {
  import opened Wrappers
  import opened Geometry

  /** One element of a Uint8Array. */
  type Byte = b: int | 0 <= b < 256

  /** A sounding note: strike velocity normalised by 127, and onset time. */
  datatype Strike = Strike(velocity: real, start: real)

  /**
    What onMessage reads and writes: the per-note state (None is `null`),
    the per-note sustain flags, the global sustain flag and the message log.
   */
  datatype Store = Store(
    noteState: map<int, Option<Strike>>,
    sustainState: map<int, bool>,
    sustain: bool,
    notes: seq<seq<Byte>>)

  /** A note-indexed record with an entry for every piano note. */
  ghost predicate HasAllNotes<V>(m: map<int, V>) {
    forall k :: IsPianoNote(k) ==> k in m
  }

  /** Both per-note records have an entry for every piano note. */
  ghost predicate Covers(s: Store) {
    HasAllNotes(s.noteState) && HasAllNotes(s.sustainState)
  }

  /** The state right after the component is set up: every piano note silent and unsustained. */
  function InitialStore(): (s: Store)
    ensures Covers(s)
    ensures forall k :: IsPianoNote(k) ==> s.noteState[k] == None && !s.sustainState[k]
    ensures !s.sustain && s.notes == []
  {
    Store(map k | k in PianoNotes :: None,
          map k | k in PianoNotes :: false,
          false, [])
  }

  /** The pedal-release loop: every piano note's sustain flag becomes false. */
  function ReleaseAll(ss: map<int, bool>): (r: map<int, bool>)
    ensures forall k :: k in r <==> k in ss || IsPianoNote(k)
    ensures forall k :: k in r ==> r[k] == (!IsPianoNote(k) && ss[k])
  {
    ss + map k | k in PianoNotes :: false
  }

  /** A three-byte message that the decoder takes as a sustain-pedal change. */
  predicate IsSustainMessage(d: seq<Byte>) {
    |d| == 3 && ((d[0] == 176 && (d[2] == 0 || d[2] == 127)) || (d[0] == 144 && d[2] == 127))
  }

  /** A three-byte note-on message that is not the velocity-127 sustain alias. */
  predicate IsNoteMessage(d: seq<Byte>) {
    |d| == 3 && d[0] == 144 && d[2] != 127
  }

  /** A one-byte timing-clock or active-sensing message. */
  predicate IsRealtimeMessage(d: seq<Byte>) {
    |d| == 1 && (d[0] == 248 || d[0] == 254)
  }

  /**
    onMessage: the effect of one MIDI message event received at time `now`.
    A missing payload (`data` is null) does nothing.
   */
  function Receive(s: Store, data: Option<seq<Byte>>, now: real): (r: Store)
    ensures Covers(s) ==> Covers(r)
    ensures r.notes == s.notes || (data.Some? && r.notes == s.notes + [data.value])
    ensures forall k :: k in s.noteState ==> k in r.noteState
    ensures forall k :: k in s.sustainState ==> k in r.sustainState
  {
    match data
    case None => s
    case Some(d) =>
      if IsRealtimeMessage(d) then s
      else if IsNoteMessage(d) then
        if d[2] == 0 then
          s.(noteState := s.noteState[d[1] := None])
        else
          s.(noteState := s.noteState[d[1] := Some(Strike(d[2] as real / 127.0, now))],
             sustainState := if s.sustain then s.sustainState[d[1] := true] else s.sustainState)
      else
        var pedal :=
          if IsSustainMessage(d) then
            var down := d[2] == 127;
            s.(sustain := down, sustainState := if !down then ReleaseAll(s.sustainState) else s.sustainState)
          else s;
        pedal.(notes := pedal.notes + [d])
  }

  /** A null payload and the one-byte clock and active-sensing messages change nothing, not even the log. */
  lemma IgnoredMessagesChangeNothing(s: Store, now: real)
    ensures Receive(s, None, now) == s
    ensures Receive(s, Some([248]), now) == s
    ensures Receive(s, Some([254]), now) == s
  {
  }

  /**
    A note-on [144, n, v] with v neither 0 nor 127 records the strike at `now`
    with velocity v/127, strictly between 0 and 1 for a proper data byte
    (below 128; a Uint8Array can carry larger values); it marks the note sustained
    exactly when the pedal is down; nothing else changes and nothing is logged.
   */
  lemma NoteOnRecordsStrike(s: Store, n: Byte, v: Byte, now: real)
    requires v != 0 && v != 127
    ensures var r := Receive(s, Some([144, n, v]), now);
      && r.noteState == s.noteState[n := Some(Strike(v as real / 127.0, now))]
      && (v < 127 ==> 0.0 < r.noteState[n].value.velocity < 1.0)
      && r.sustainState == (if s.sustain then s.sustainState[n := true] else s.sustainState)
      && r.sustain == s.sustain
      && r.notes == s.notes
  {
  }

  /**
    A note-on with velocity 0 silences that note only; the sustain flags,
    the pedal and the log are untouched.
   */
  lemma NoteOnZeroSilences(s: Store, n: Byte, now: real)
    ensures var r := Receive(s, Some([144, n, 0]), now);
      && r.noteState == s.noteState[n := None]
      && r.noteState[n] == None
      && (forall k :: k in s.noteState && k != n ==> k in r.noteState && r.noteState[k] == s.noteState[k])
      && (forall k :: k in r.noteState ==> k in s.noteState || k == n)
      && r.sustainState == s.sustainState
      && r.sustain == s.sustain
      && r.notes == s.notes
  {
  }

  /**
    A sustain message sets the pedal to (data2 == 127); releasing it clears the
    sustain flag of every piano note (whether or not it was ever set) and leaves
    other keys alone, pressing it leaves the flags alone; note state is
    untouched and the message is logged.
   */
  lemma SustainMessageSetsPedal(s: Store, d: seq<Byte>, now: real)
    requires IsSustainMessage(d)
    ensures var r := Receive(s, Some(d), now);
      && r.sustain == (d[2] == 127)
      && r.noteState == s.noteState
      && r.notes == s.notes + [d]
      && (d[2] == 127 ==> r.sustainState == s.sustainState)
      && (d[2] == 0 ==> r.sustainState == ReleaseAll(s.sustainState))
      && (d[2] == 0 ==>
            (forall k :: IsPianoNote(k) ==> k in r.sustainState && !r.sustainState[k])
            && (forall k :: k in s.sustainState && !IsPianoNote(k) ==> k in r.sustainState && r.sustainState[k] == s.sustainState[k]))
  {
  }

  /** Every other message is only appended to the log. */
  lemma OtherMessagesAreOnlyLogged(s: Store, d: seq<Byte>, now: real)
    requires !IsRealtimeMessage(d) && !IsNoteMessage(d) && !IsSustainMessage(d)
    ensures Receive(s, Some(d), now) == s.(notes := s.notes + [d])
  {
  }

  /**
    Only channel 1 is decoded: a note-on or control change on channels 2-16
    (status 145-159 or 177-191) is only logged.
   */
  lemma DecoderReadsChannelOneOnly(s: Store, ch: Byte, n: Byte, v: Byte, now: real)
    requires 145 <= ch <= 159 || 177 <= ch <= 191
    ensures Receive(s, Some([ch, n, v]), now) == s.(notes := s.notes + [[ch, n, v]])
  {
    OtherMessagesAreOnlyLogged(s, [ch, n, v], now);
  }

  /**
    The controller number is never read: any controller at 127 presses the
    sustain pedal and at 0 releases it (not only controller 64), and a
    controller value between 1 and 126 is only logged.
   */
  lemma AnyControllerIsThePedal(s: Store, c: Byte, v: Byte, now: real)
    ensures Receive(s, Some([176, c, 127]), now).sustain
    ensures !Receive(s, Some([176, c, 0]), now).sustain
    ensures 0 < v < 127 ==> Receive(s, Some([176, c, v]), now) == s.(notes := s.notes + [[176, c, v]])
  {
    SustainMessageSetsPedal(s, [176, c, 127], now);
    SustainMessageSetsPedal(s, [176, c, 0], now);
    if 0 < v < 127 {
      OtherMessagesAreOnlyLogged(s, [176, c, v], now);
    }
  }

  /** The explicit note-off status 128 is never decoded: such a message is only logged. */
  lemma NoteOffStatusIsOnlyLogged(s: Store, n: Byte, v: Byte, now: real)
    ensures Receive(s, Some([128, n, v]), now) == s.(notes := s.notes + [[128, n, v]])
  {
    OtherMessagesAreOnlyLogged(s, [128, n, v], now);
  }

  /**
    Repeating a note message (a strike, or a release by velocity 0) at the same
    moment has the same effect as sending it once: the store is keyed by note
    and the last write wins.
   */
  lemma NoteMessageIdempotent(s: Store, n: Byte, v: Byte, now: real)
    requires v != 127
    ensures Receive(Receive(s, Some([144, n, v]), now), Some([144, n, v]), now)
         == Receive(s, Some([144, n, v]), now)
  {
    var d: seq<Byte> := [144, n, v];
    var once := Receive(s, Some(d), now);
    if v == 0 {
      assert once.noteState == s.noteState[n := None];
    } else {
      assert once.sustain == s.sustain;
      assert once.noteState == s.noteState[n := Some(Strike(v as real / 127.0, now))];
    }
  }

  /** Two strikes of one note differ only in the recorded onset time and velocity. */
  lemma LaterStrikeOverwrites(s: Store, n: Byte, v: Byte, w: Byte, t: real, u: real)
    requires v != 0 && v != 127 && w != 0 && w != 127
    ensures Receive(Receive(s, Some([144, n, v]), t), Some([144, n, w]), u)
         == Receive(s, Some([144, n, w]), u)
  {
    var once := Receive(s, Some([144, n, v]), t);
    assert once.sustain == s.sustain;
  }
}
