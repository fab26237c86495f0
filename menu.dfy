/**
 * The menu mode of src/lib.rs (`UI`): a list of entries, some of which move
 * to another mode when their key is pressed. Layout and drawing are not part
 * of this model; only the key handling and the pending transition are.
 */
module Menu {
  import opened Wrappers
  import opened Events

  /** One line of a menu; the height is the vertical space it takes. */
  datatype MenuEntry =
    | Transition(height: real, text: string, key: Key, target: States)
    | Message(height: real, text: string)
    | VSpace(height: real)

  predicate Triggers(e: MenuEntry, k: Key) {
    e.Transition? && e.key == k
  }

  /** The target of the first transition entry whose key is `k`, if any. */
  function FirstTransition(options: seq<MenuEntry>, k: Key): (r: Option<States>)
    ensures r.None? <==> forall i | 0 <= i < |options| :: !Triggers(options[i], k)
    ensures r.Some? ==> exists i | 0 <= i < |options| ::
              Triggers(options[i], k) && options[i].target == r.value
              && forall j | 0 <= j < i :: !Triggers(options[j], k)
  {
    if options == [] then None
    else if Triggers(options[0], k) then Some(options[0].target)
    else
      var r := FirstTransition(options[1..], k);
      assert forall i | 1 <= i < |options| :: options[i] == options[1..][i - 1];
      r
  }

  /** Every mode a menu can move to. */
  function MenuTargets(options: seq<MenuEntry>): set<States> {
    set i | 0 <= i < |options| && options[i].Transition? :: options[i].target
  }

  /** A transition found by a key press is one of the menu's targets. */
  lemma FirstTransitionTarget(options: seq<MenuEntry>, k: Key)
    ensures FirstTransition(options, k).Some? ==> FirstTransition(options, k).value in MenuTargets(options)
  {
  }

  class UI {
    /** The transition requested by the last key press and not yet taken. */
    var goto_state: Option<States>
    /** The entries shown on the screen, top to bottom. */
    const options: seq<MenuEntry>

    constructor (options: seq<MenuEntry>)
      ensures this.options == options && goto_state == None
    {
      this.options := options;
      goto_state := None;
    }

    /**
     * `key_down_event`: scans the entries in order and records the target of
     * the first transition bound to `k`; a key bound to none keeps the
     * pending transition as it was.
     */
    method KeyDown(k: Key)
      modifies this
      ensures goto_state == if FirstTransition(options, k).Some? then FirstTransition(options, k)
                            else old(goto_state)
    {
      for i := 0 to |options|
        invariant goto_state == old(goto_state)
        invariant forall j | 0 <= j < i :: !Triggers(options[j], k)
      {
        if options[i].Transition? && options[i].key == k {
          goto_state := Some(options[i].target);
          FirstTransitionAt(options, k, i);
          return;
        }
      }
    }

    /** `next_state`: hands out the pending transition once. */
    method NextState() returns (s: Option<States>)
      modifies this
      ensures s == old(goto_state) && goto_state == None
    {
      s := goto_state;
      goto_state := None;
    }
  }

  /** The first triggering entry determines the answer. */
  lemma {:induction false} FirstTransitionAt(options: seq<MenuEntry>, k: Key, i: nat)
    requires i < |options| && Triggers(options[i], k)
    requires forall j | 0 <= j < i :: !Triggers(options[j], k)
    ensures FirstTransition(options, k) == Some(options[i].target)
  {
    if i > 0 {
      assert !Triggers(options[0], k);
      FirstTransitionAt(options[1..], k, i - 1);
    }
  }
}
