// Control-flow graphs given by the predecessors of each instruction.
module FlowGraph {
  import opened Collections

  predicate Lists(lists: map<int, seq<int>>, n: int, d: int) {
    n in lists && d in lists[n]
  }

  // Successor lists out of the predecessor lists.
  method Successors(preds: map<int, seq<int>>) returns (succ: map<int, seq<int>>)
    ensures forall n, d :: Lists(succ, n, d) <==> Lists(preds, d, n)
  {
    succ := map[];
    var nodes := Listing(preds.Keys);
    for k := 0 to |nodes|
      invariant forall n, d :: Lists(succ, n, d) <==> d in nodes[..k] && Lists(preds, d, n)
    {
      ghost var before := succ;
      succ := AddEdges(succ, preds[nodes[k]], nodes[k]);
      assert nodes[..k + 1] == nodes[..k] + [nodes[k]];
      forall n, d
        ensures Lists(succ, n, d) <==> d in nodes[..k + 1] && Lists(preds, d, n)
      {
        assert Lists(succ, n, d) <==> Lists(before, n, d) || (d == nodes[k] && n in preds[nodes[k]]);
      }
    }
    assert nodes[..|nodes|] == nodes;
  }

  method AddEdges(succ: map<int, seq<int>>, ps: seq<int>, d: int) returns (more: map<int, seq<int>>)
    ensures forall n, x :: Lists(more, n, x) <==> Lists(succ, n, x) || (x == d && n in ps)
  {
    more := succ;
    for i := 0 to |ps|
      invariant forall n, x :: Lists(more, n, x) <==> Lists(succ, n, x) || (x == d && n in ps[..i])
    {
      ghost var was := more;
      var p := ps[i];
      more := more[p := (if p in more then more[p] else []) + [d]];
      assert ps[..i + 1] == ps[..i] + [p];
      assert forall n, x :: Lists(more, n, x) <==> Lists(was, n, x) || (x == d && n == p);
    }
    assert ps[..|ps|] == ps;
  }
}
