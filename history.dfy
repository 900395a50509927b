/** MoveHistory: two stacks, of snapshots and of move notations, pushed and popped together. */
module History {
  import opened Wrappers
  import opened Snapshots

  class MoveHistory {
    /** The stacks, bottom first: the last element is the top. */
    var snapshots: seq<GameSnapshot>
    var notations: seq<string>

    /** Every push and every pop touches both stacks. */
    predicate Valid()
      reads this
    {
      |snapshots| == |notations|
    }

    constructor ()
      ensures Valid() && snapshots == [] && notations == []
    {
      snapshots := [];
      notations := [];
    }

    method PushSnapshot(snapshot: GameSnapshot, notation: string)
      requires Valid()
      modifies this
      ensures Valid()
      ensures snapshots == old(snapshots) + [snapshot]
      ensures notations == old(notations) + [notation]
    {
      snapshots := snapshots + [snapshot];
      notations := notations + [notation];
    }

    /**
     * Pops while times (one when omitted) is positive and the snapshot stack yields an entry. The result is the last
     * snapshot popped, except that a pop on the empty stack resets it to none.
     */
    method Rollback(times: nat := 1) returns (snapshot: Option<GameSnapshot>)
      requires Valid()
      modifies this
      ensures Valid()
      ensures times <= |old(snapshots)| ==> snapshots == old(snapshots)[..|old(snapshots)| - times]
      ensures times <= |old(snapshots)| ==> notations == old(notations)[..|old(snapshots)| - times]
      ensures times > |old(snapshots)| ==> snapshots == [] && notations == []
      ensures 1 <= times <= |old(snapshots)| ==> snapshot == Some(old(snapshots)[|old(snapshots)| - times])
      ensures times == 0 || times > |old(snapshots)| ==> snapshot.None?
    {
      snapshot := None;
      var t: nat := times;
      while t > 0
        invariant Valid()
        invariant t <= times
        invariant |snapshots| + (times - t) == |old(snapshots)| == |old(notations)|
        invariant snapshots == old(snapshots)[..|snapshots|] && notations == old(notations)[..|snapshots|]
        invariant t < times ==> snapshot == Some(old(snapshots)[|snapshots|])
        invariant t == times ==> snapshot.None?
      {
        if snapshots == [] {
          snapshot := None;
          break;
        }
        snapshot := Some(snapshots[|snapshots| - 1]);
        snapshots := snapshots[..|snapshots| - 1];
        notations := notations[..|notations| - 1];
        t := t - 1;
      }
    }
  }
}
