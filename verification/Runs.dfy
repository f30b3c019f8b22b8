/** Behaviours of a state machine: the worlds passed and the action taken in each. */
module Runs {
  ghost predicate Behaves<W, A>(step: (W, A, W) -> bool, ws: seq<W>, acts: seq<A>) {
    && |ws| == |acts| + 1
    && forall i :: 0 <= i < |acts| ==> step(ws[i], acts[i], ws[i + 1])
  }

  lemma Extend<W, A>(step: (W, A, W) -> bool, ws: seq<W>, acts: seq<A>, a: A, v: W)
    requires Behaves(step, ws, acts) && step(ws[|acts|], a, v)
    ensures Behaves(step, ws + [v], acts + [a])
  {
    var vs, bs := ws + [v], acts + [a];
    forall i | 0 <= i < |bs|
      ensures step(vs[i], bs[i], vs[i + 1])
    {
      if i < |acts| {
        assert vs[i] == ws[i] && vs[i + 1] == ws[i + 1] && bs[i] == acts[i];
      }
    }
  }
}
