/**
 Paths of any transition relation: the states before, between and after a sequence of operations.
 */
module Paths {

  ghost predicate Path<S, Op>(takes: (S, Op, S) -> bool, ws: seq<S>, ops: seq<Op>) {
    && |ws| == |ops| + 1
    && (forall i {:trigger ops[i]} :: 0 <= i < |ops| ==> takes(ws[i], ops[i], ws[i + 1]))
  }

  lemma PathConcat<S, Op>(takes: (S, Op, S) -> bool, u: seq<S>, a: seq<Op>, v: seq<S>, b: seq<Op>)
    requires Path(takes, u, a) && Path(takes, v, b) && u[|a|] == v[0]
    ensures Path(takes, u + v[1..], a + b)
    ensures (u + v[1..])[0] == u[0] && (u + v[1..])[|a + b|] == v[|b|]
  {
    var ws, ops := u + v[1..], a + b;
    forall i | 0 <= i < |ops| ensures takes(ws[i], ops[i], ws[i + 1]) {
      if i < |a| {
        assert ops[i] == a[i];
      } else {
        assert ops[i] == b[i - |a|];
      }
    }
  }

  lemma PathTail<S, Op>(takes: (S, Op, S) -> bool, ws: seq<S>, ops: seq<Op>)
    requires Path(takes, ws, ops) && ops != []
    ensures takes(ws[0], ops[0], ws[1]) && Path(takes, ws[1..], ops[1..])
  {
    forall i | 0 <= i < |ops| - 1 ensures takes(ws[1..][i], ops[1..][i], ws[1..][i + 1]) {
      assert ops[1..][i] == ops[i + 1];
    }
  }
}
