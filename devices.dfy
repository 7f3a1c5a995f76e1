/**
  The device panel of the app: the listed MIDI inputs, reconciled in place with
  each new enumeration, and the flag that hides the controls.
 */
module Devices {
  import opened Ports

  class LightApp {
    /** The `inputs` collection shown as radio buttons. */
    var inputs: seq<MidiInput>
    /** Whether the connection controls are hidden. */
    var connectHidden: bool

    constructor()
      ensures inputs == [] && !connectHidden
    {
      inputs := [];
      connectHidden := false;
    }

    /**
      updatePorts: collects the old and the enumerated ids, pushes the old
      entries still enumerated, then the enumerated entries not listed
      before, and replaces the list contents with the result.
     */
    method UpdatePorts(enumerated: seq<MidiInput>)
      modifies this`inputs
      ensures inputs == Reconcile(old(inputs), enumerated)
    {
      var existing := CollectIds(inputs);
      var newInputs := CollectIds(enumerated);
      var toReset: seq<MidiInput> := [];
      var i := 0;
      while i < |inputs|
        invariant 0 <= i <= |inputs|
        invariant toReset == Select(inputs[..i], newInputs, true)
      {
        assert inputs[..i + 1][..i] == inputs[..i];
        if inputs[i].id in newInputs {
          toReset := toReset + [inputs[i]];
        }
        i := i + 1;
      }
      assert inputs[..i] == inputs;
      ghost var kept := toReset;
      var j := 0;
      while j < |enumerated|
        invariant 0 <= j <= |enumerated|
        invariant toReset == kept + Select(enumerated[..j], existing, false)
      {
        assert enumerated[..j + 1][..j] == enumerated[..j];
        if enumerated[j].id !in existing {
          toReset := toReset + [enumerated[j]];
        }
        j := j + 1;
      }
      assert enumerated[..j] == enumerated;
      inputs := toReset;
    }

    /** The keypress listener: 'c' reveals the controls; any other key changes nothing. */
    method KeyPress(key: string)
      modifies this`connectHidden
      ensures connectHidden == (if key == "c" then false else old(connectHidden))
    {
      if key == "c" {
        connectHidden := false;
      }
    }

    /** The "Hide Controls" button. */
    method HideControls()
      modifies this`connectHidden
      ensures connectHidden
    {
      connectHidden := true;
    }
  }

  /** Builds the set of ids of a list by adding one id per entry. */
  method CollectIds(s: seq<MidiInput>) returns (ids: set<string>)
    ensures ids == Ids(s)
  {
    ids := {};
    var i := 0;
    while i < |s|
      invariant 0 <= i <= |s|
      invariant ids == Ids(s[..i])
    {
      assert s[..i + 1][..i] == s[..i];
      IdsOfSnoc(s[..i + 1]);
      ids := ids + {s[i].id};
      i := i + 1;
    }
    assert s[..i] == s;
  }
}
