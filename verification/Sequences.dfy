/** Leaving elements out of a sequence: the others stay, in their order. */
module Sequences {

  ghost predicate Increasing(at: seq<nat>) {
    forall i, j :: 0 <= i < j < |at| ==> at[i] < at[j]
  }

  /** The elements picked are those at these indices, from the front to the back. */
  ghost predicate PickedAt<T>(picked: seq<T>, all: seq<T>, at: seq<nat>) {
    && Increasing(at) && |picked| == |at|
    && forall k :: 0 <= k < |at| ==> at[k] < |all| && picked[k] == all[at[k]]
  }

  /** The indices one further to the back. */
  function Shifted(at: seq<nat>): (r: seq<nat>)
    ensures |r| == |at| && forall k :: 0 <= k < |at| ==> r[k] == at[k] + 1
  {
    seq(|at|, k requires 0 <= k < |at| => at[k] + 1)
  }

  /** Picking, from a sequence one longer at the front, that element or not. */
  function Behind(first: bool, at: seq<nat>): seq<nat> {
    if first then [0] + Shifted(at) else Shifted(at)
  }

  lemma InShifted(at: seq<nat>, i: nat)
    ensures i in Shifted(at) <==> i > 0 && i - 1 in at
  {
    if i > 0 && i - 1 in at {
      var k :| 0 <= k < |at| && at[k] == i - 1;
      assert Shifted(at)[k] == i;
    }
  }

  lemma PickedShifted<T>(picked: seq<T>, all: seq<T>, at: seq<nat>)
    requires all != [] && PickedAt(picked, all[1..], at)
    ensures PickedAt(picked, all, Shifted(at))
  {
    var up := Shifted(at);
    hide Shifted;
    forall k | 0 <= k < |up| ensures up[k] < |all| && picked[k] == all[up[k]] {
      assert all[1..][at[k]] == all[up[k]];
    }
  }

  lemma PickedFirst<T>(picked: seq<T>, all: seq<T>, at: seq<nat>)
    requires all != [] && PickedAt(picked, all, at) && forall k :: 0 <= k < |at| ==> at[k] > 0
    ensures PickedAt([all[0]] + picked, all, [0] + at)
  {
    var (more, longer) := ([0] + at, [all[0]] + picked);
    assert more[0] == 0 && longer[0] == all[0];
    forall k | 0 < k < |more| ensures more[k] == at[k - 1] && longer[k] == picked[k - 1] {
    }
  }

  lemma PickedBehind<T>(first: bool, picked: seq<T>, all: seq<T>, at: seq<nat>)
    requires all != [] && PickedAt(picked, all[1..], at)
    ensures PickedAt((if first then [all[0]] else []) + picked, all, Behind(first, at))
    ensures forall i: nat :: i in Behind(first, at) <==> if i == 0 then first else i - 1 in at
  {
    forall i: nat ensures i in Behind(first, at) <==> if i == 0 then first else i - 1 in at {
      InShifted(at, i);
    }
    PickedShifted(picked, all, at);
    hide PickedAt;
    if first {
      PickedFirst(picked, all, Shifted(at));
    } else {
      assert [] + picked == picked;
    }
  }
}
