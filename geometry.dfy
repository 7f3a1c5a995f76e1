/**
  The pure note geometry of the visualiser: where a note sits on the piano range
  and which hue its pitch class gets from the circle-of-fifths table.
  The trigonometric placement (getX/getY) is not modelled here; the simulation
  takes it as a parameter (see module Simulation).
 */
module Geometry {
  import opened Wrappers

  /** Lowest and highest key of an 88-key piano, as MIDI note numbers. */
  const LowestNote: int := 21
  const HighestNote: int := 108

  predicate IsPianoNote(n: int) {
    LowestNote <= n <= HighestNote
  }

  /** The piano notes, as a set, for map comprehensions over them. */
  const PianoNotes: set<int> := set n | LowestNote <= n <= HighestNote

  /** Normalised position of a note on the keyboard (getNoteRange). */
  function NoteRange(n: int): (r: real)
    ensures IsPianoNote(n) ==> 0.0 <= r <= 1.0
    ensures n == LowestNote ==> r == 0.0
    ensures n == HighestNote ==> r == 1.0
  {
    (n - LowestNote) as real / (HighestNote - LowestNote) as real
  }

  /** The keyboard position grows strictly with the note, so no two notes share it. */
  lemma NoteRangeStrictlyIncreasing(m: int, n: int)
    requires m < n
    ensures NoteRange(m) < NoteRange(n)
  {
    assert (m - LowestNote) as real < (n - LowestNote) as real;
  }

  /**
    The circle-of-fifths table, keyed by pitch class relative to A
    (0 = A, 1 = A#, ..., 11 = G#), giving the rank of that pitch class
    along the circle A, E, B, F#, C#, G#, D#, A#, F, C, G, D.
   */
  const CircleOfFifthsDistance: map<int, int> :=
    map[0 := 0, 7 := 1, 2 := 2, 9 := 3, 4 := 4, 11 := 5,
        6 := 6, 1 := 7, 8 := 8, 3 := 9, 10 := 10, 5 := 11]

  /**
    Pitch class relative to A, `(n - 21) % 12` with JavaScript's `%`, whose
    remainder takes the sign of the dividend (Dafny's `%` never goes negative).
   */
  function RelativeToA(n: int): (r: int)
    ensures -12 < r < 12
    ensures n >= LowestNote ==> r == (n - LowestNote) % 12
    ensures n < LowestNote ==> r <= 0 && (r == 0 <==> (LowestNote - n) % 12 == 0)
  {
    var a := n - LowestNote;
    if a >= 0 then a % 12 else -((-a) % 12)
  }

  /**
    getDistance: the table entry for the note's pitch class. Below the lowest
    note the truncating remainder can be negative, and the lookup then yields
    `undefined` (None) unless the note lies a whole number of octaves below A0.
   */
  function Distance(n: int): (r: Option<int>)
    ensures r.Some? <==> n >= LowestNote || (LowestNote - n) % 12 == 0
    ensures r.Some? ==> 0 <= r.value < 12
  {
    var k := RelativeToA(n);
    if k in CircleOfFifthsDistance then Some(CircleOfFifthsDistance[k]) else None
  }

  /** getHue: the rank divided by 12, a fraction of a full turn; None stands for NaN. */
  function Hue(n: int): (r: Option<real>)
    ensures r.Some? <==> Distance(n).Some?
    ensures r.Some? ==> 0.0 <= r.value <= 11.0 / 12.0
  {
    match Distance(n)
    case None => None
    case Some(d) => Some(d as real / 12.0)
  }

  /** The table is a bijection of the twelve pitch classes onto the twelve ranks. */
  lemma DistanceTableIsBijection()
    ensures forall k :: k in CircleOfFifthsDistance <==> 0 <= k < 12
    ensures forall v :: v in CircleOfFifthsDistance.Values <==> 0 <= v < 12
    ensures forall a, b :: a in CircleOfFifthsDistance && b in CircleOfFifthsDistance && a != b
              ==> CircleOfFifthsDistance[a] != CircleOfFifthsDistance[b]
  {
    forall v | 0 <= v < 12 ensures v in CircleOfFifthsDistance.Values {
      var k := (7 * v) % 12;
      assert k in CircleOfFifthsDistance && CircleOfFifthsDistance[k] == v;
    }
  }

  /**
    An independent description of the table: stepping a fifth (seven semitones)
    advances one rank, so the rank of pitch class k is 7k mod 12, and the pitch
    class of rank r is 7r mod 12 (seven is its own inverse modulo twelve).
   */
  lemma DistanceTableIsCircleOfFifths(k: int)
    requires 0 <= k < 12
    ensures k in CircleOfFifthsDistance
    ensures CircleOfFifthsDistance[k] == (7 * k) % 12
    ensures (7 * CircleOfFifthsDistance[k]) % 12 == k
  {
  }

  /** Every piano note has a hue in [0, 11/12]. */
  lemma PianoNoteHasHue(n: int)
    requires IsPianoNote(n)
    ensures Hue(n).Some? && 0.0 <= Hue(n).value <= 11.0 / 12.0
  {
  }

  /** The hue depends only on the pitch class: notes an octave apart share it. */
  lemma HueOctaveInvariant(n: int)
    requires n >= LowestNote
    ensures RelativeToA(n + 12) == RelativeToA(n)
    ensures Hue(n + 12) == Hue(n)
  {
  }

  /** Two notes at or above A0 with the same pitch class relative to A get the same hue. */
  lemma HueOfPitchClass(m: int, n: int)
    requires m >= LowestNote && n >= LowestNote
    requires (m - LowestNote) % 12 == (n - LowestNote) % 12
    ensures Hue(m) == Hue(n)
  {
  }
}
