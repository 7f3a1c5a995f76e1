/**
  The reconciliation of the listed MIDI inputs with a fresh enumeration of the
  devices (updatePorts): entries still present keep their place and their old
  record, entries that disappeared are dropped, and new ones are appended in
  enumeration order.
 */
module Ports {

  /** The fields of a MIDIInput that the device list shows. */
  datatype MidiInput = MidiInput(id: string, name: string, manufacturer: string)

  /** The ids of a list of inputs. */
  function Ids(s: seq<MidiInput>): set<string> {
    set x | x in s :: x.id
  }

  /** The entries of s whose id is in `ids` (present) or not in `ids` (not present), in order. */
  function Select(s: seq<MidiInput>, ids: set<string>, present: bool): (r: seq<MidiInput>)
    ensures |r| <= |s|
    ensures forall k :: 0 <= k < |r| ==> r[k] in s && (r[k].id in ids) == present
  {
    if |s| == 0 then []
    else
      var x := s[|s| - 1];
      Select(s[..|s| - 1], ids, present) + (if (x.id in ids) == present then [x] else [])
  }

  /**
    updatePorts: the previously listed inputs whose id is still enumerated,
    in their old order, then the enumerated inputs whose id was not listed,
    in enumeration order.
   */
  function Reconcile(listed: seq<MidiInput>, enumerated: seq<MidiInput>): (r: seq<MidiInput>)
    ensures |r| <= |listed| + |enumerated|
    ensures forall k :: 0 <= k < |r| ==> r[k].id in Ids(enumerated)
  {
    Select(listed, Ids(enumerated), true) + Select(enumerated, Ids(listed), false)
  }

  /** No two entries share an id. */
  ghost predicate DistinctIds(s: seq<MidiInput>) {
    forall a, b :: 0 <= a < b < |s| ==> s[a].id != s[b].id
  }

  lemma IdsOfConcat(a: seq<MidiInput>, b: seq<MidiInput>)
    ensures Ids(a + b) == Ids(a) + Ids(b)
  {
    forall id | id in Ids(a + b) ensures id in Ids(a) + Ids(b) {
      var x :| x in a + b && x.id == id;
      assert x in a || x in b;
    }
  }

  /** An entry is selected exactly when it is in s and its id is (or is not) in `ids`. */
  lemma {:induction false} SelectMembers(s: seq<MidiInput>, ids: set<string>, present: bool)
    ensures forall x :: x in Select(s, ids, present) <==> x in s && (x.id in ids) == present
    decreases |s|
  {
    if |s| > 0 {
      var init := s[..|s| - 1];
      SelectMembers(init, ids, present);
      assert s == init + [s[|s| - 1]];
    }
  }

  /** Selecting the whole of a + b is selecting from a, then from b: order is kept. */
  lemma {:induction false} SelectOfConcat(a: seq<MidiInput>, b: seq<MidiInput>, ids: set<string>, present: bool)
    ensures Select(a + b, ids, present) == Select(a, ids, present) + Select(b, ids, present)
    decreases |b|
  {
    if |b| == 0 {
      assert a + b == a;
    } else {
      assert (a + b)[..|a + b| - 1] == a + b[..|b| - 1];
      assert (a + b)[|a + b| - 1] == b[|b| - 1];
      SelectOfConcat(a, b[..|b| - 1], ids, present);
    }
  }

  /** Selecting entries that all pass keeps them all. */
  lemma {:induction false} SelectAll(s: seq<MidiInput>, ids: set<string>, present: bool)
    requires forall x :: x in s ==> (x.id in ids) == present
    ensures Select(s, ids, present) == s
    decreases |s|
  {
    if |s| > 0 {
      var init := s[..|s| - 1];
      var x := s[|s| - 1];
      assert s == init + [x];
      SelectAll(init, ids, present);
      assert (x.id in ids) == present;
    }
  }

  /** Selecting entries that all fail keeps none. */
  lemma {:induction false} SelectNothing(s: seq<MidiInput>, ids: set<string>, present: bool)
    requires forall x :: x in s ==> (x.id in ids) != present
    ensures Select(s, ids, present) == []
    decreases |s|
  {
    if |s| > 0 {
      var init := s[..|s| - 1];
      assert forall x :: x in init ==> x in s;
      SelectNothing(init, ids, present);
      assert s[|s| - 1] in s;
    }
  }

  /** Selection keeps ids distinct. */
  lemma {:induction false} SelectDistinct(s: seq<MidiInput>, ids: set<string>, present: bool)
    requires DistinctIds(s)
    ensures DistinctIds(Select(s, ids, present))
    decreases |s|
  {
    if |s| > 0 {
      var init := s[..|s| - 1];
      var x := s[|s| - 1];
      assert DistinctIds(init);
      SelectDistinct(init, ids, present);
      SelectMembers(init, ids, present);
      var r := Select(s, ids, present);
      var prev := Select(init, ids, present);
      forall a, b | 0 <= a < b < |r| ensures r[a].id != r[b].id {
        if b >= |prev| {
          assert r[b] == x;
          assert r[a] == prev[a] && prev[a] in init;
          var t :| 0 <= t < |init| && init[t] == prev[a];
          assert s[t] == init[t];
        } else {
          assert r[a] == prev[a] && r[b] == prev[b];
        }
      }
    }
  }

  /** The ids of a selection: those of s that are (or are not) in `ids`. */
  lemma SelectIds(s: seq<MidiInput>, ids: set<string>, present: bool)
    ensures present ==> Ids(Select(s, ids, present)) == Ids(s) * ids
    ensures !present ==> Ids(Select(s, ids, present)) == Ids(s) - ids
  {
    SelectMembers(s, ids, present);
    var r := Select(s, ids, present);
    forall id | id in Ids(s) && (id in ids) == present ensures id in Ids(r) {
      var x :| x in s && x.id == id;
      assert x in r;
    }
  }

  /** The reconciled list is made of old entries still enumerated and of newly enumerated ones. */
  lemma ReconcileMembers(listed: seq<MidiInput>, enumerated: seq<MidiInput>)
    ensures forall x :: x in Reconcile(listed, enumerated) <==>
      (x in listed && x.id in Ids(enumerated)) || (x in enumerated && x.id !in Ids(listed))
  {
    SelectMembers(listed, Ids(enumerated), true);
    SelectMembers(enumerated, Ids(listed), false);
  }

  /** The reconciled list lists exactly the enumerated ids. */
  lemma ReconcileIds(listed: seq<MidiInput>, enumerated: seq<MidiInput>)
    ensures Ids(Reconcile(listed, enumerated)) == Ids(enumerated)
  {
    IdsOfConcat(Select(listed, Ids(enumerated), true), Select(enumerated, Ids(listed), false));
    SelectIds(listed, Ids(enumerated), true);
    SelectIds(enumerated, Ids(listed), false);
  }

  /** A listed input whose id is no longer enumerated leaves no entry with that id. */
  lemma ReconcileDropsVanished(listed: seq<MidiInput>, enumerated: seq<MidiInput>, gone: MidiInput)
    requires gone in listed && gone.id !in Ids(enumerated)
    ensures forall x :: x in Reconcile(listed, enumerated) ==> x.id != gone.id
  {
    ReconcileIds(listed, enumerated);
    forall x | x in Reconcile(listed, enumerated) ensures x.id != gone.id {
      assert x.id in Ids(Reconcile(listed, enumerated));
    }
  }

  /**
    Order: the entries of the result with a previously listed id are the kept
    old records in their old order, and those with a new id are the new
    enumerated entries in enumeration order.
   */
  lemma ReconcileOrder(listed: seq<MidiInput>, enumerated: seq<MidiInput>)
    ensures Select(Reconcile(listed, enumerated), Ids(listed), true) == Select(listed, Ids(enumerated), true)
    ensures Select(Reconcile(listed, enumerated), Ids(listed), false) == Select(enumerated, Ids(listed), false)
  {
    var kept := Select(listed, Ids(enumerated), true);
    var added := Select(enumerated, Ids(listed), false);
    SelectMembers(listed, Ids(enumerated), true);
    SelectMembers(enumerated, Ids(listed), false);
    forall x | x in kept ensures x.id in Ids(listed) {
      assert x in listed;
    }
    SelectOfConcat(kept, added, Ids(listed), true);
    SelectOfConcat(kept, added, Ids(listed), false);
    SelectAll(kept, Ids(listed), true);
    SelectNothing(kept, Ids(listed), false);
    SelectNothing(added, Ids(listed), true);
    SelectAll(added, Ids(listed), false);
  }

  /** With distinct ids on both sides, the result has distinct ids, one entry per enumerated input. */
  lemma ReconcileDistinct(listed: seq<MidiInput>, enumerated: seq<MidiInput>)
    requires DistinctIds(listed) && DistinctIds(enumerated)
    ensures DistinctIds(Reconcile(listed, enumerated))
    ensures |Reconcile(listed, enumerated)| == |Ids(enumerated)|
  {
    var kept := Select(listed, Ids(enumerated), true);
    var added := Select(enumerated, Ids(listed), false);
    var r := kept + added;
    SelectDistinct(listed, Ids(enumerated), true);
    SelectDistinct(enumerated, Ids(listed), false);
    SelectMembers(listed, Ids(enumerated), true);
    SelectMembers(enumerated, Ids(listed), false);
    forall a, b | 0 <= a < b < |r| ensures r[a].id != r[b].id {
      if a < |kept| && b >= |kept| {
        assert r[a] == kept[a] && r[a] in listed;
        assert r[b] == added[b - |kept|] && r[b] in added;
        assert r[a].id in Ids(listed);
      } else if a >= |kept| {
        assert r[a] == added[a - |kept|] && r[b] == added[b - |kept|];
      } else {
        assert r[a] == kept[a] && r[b] == kept[b];
      }
    }
    ReconcileIds(listed, enumerated);
    DistinctIdsCount(r);
  }

  /** A list with distinct ids has as many entries as ids. */
  lemma {:induction false} DistinctIdsCount(s: seq<MidiInput>)
    requires DistinctIds(s)
    ensures |Ids(s)| == |s|
    decreases |s|
  {
    if |s| > 0 {
      var init := s[..|s| - 1];
      var x := s[|s| - 1];
      DistinctLast(s);
      DistinctIdsCount(init);
      IdsOfSnoc(s);
      assert |Ids(init) + {x.id}| == |Ids(init)| + 1;
    }
  }

  /** The ids of a non-empty list: those of all but its last entry, and the last entry's. */
  lemma IdsOfSnoc(s: seq<MidiInput>)
    requires |s| > 0
    ensures Ids(s) == Ids(s[..|s| - 1]) + {s[|s| - 1].id}
  {
    assert s == s[..|s| - 1] + [s[|s| - 1]];
    IdsOfConcat(s[..|s| - 1], [s[|s| - 1]]);
    assert Ids([s[|s| - 1]]) == {s[|s| - 1].id};
  }

  /** Removing the last entry keeps ids distinct, and that entry's id is not among the others. */
  lemma DistinctLast(s: seq<MidiInput>)
    requires DistinctIds(s) && |s| > 0
    ensures DistinctIds(s[..|s| - 1])
    ensures s[|s| - 1].id !in Ids(s[..|s| - 1])
  {
  }

  /** Reconciling again against the same enumeration changes nothing. */
  lemma ReconcileIdempotent(listed: seq<MidiInput>, enumerated: seq<MidiInput>)
    ensures Reconcile(Reconcile(listed, enumerated), enumerated) == Reconcile(listed, enumerated)
  {
    var r := Reconcile(listed, enumerated);
    ReconcileIds(listed, enumerated);
    ReconcileMembers(listed, enumerated);
    forall x | x in r ensures x.id in Ids(enumerated) {
      assert x.id in Ids(r);
    }
    SelectAll(r, Ids(enumerated), true);
    forall x | x in enumerated ensures x.id in Ids(r) {
      assert x.id in Ids(enumerated);
    }
    SelectNothing(enumerated, Ids(r), false);
    assert r + [] == r;
  }
}
