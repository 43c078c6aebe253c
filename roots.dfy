/**
 * The stack of block roots.  The parser pushes the root of a block when
 * the block opens and pops it when the block has been reduced, so roots
 * come back in last-in, first-out order.  The top of the stack is the
 * last element of `roots`.
 */
module Roots {
  import opened Nodes

  class RootStack {
    var roots: seq<Node?>

    /** A parse starts with no open block. */
    constructor ()
      ensures roots == []
    {
      roots := [];
    }

    /** Saves the root of a new block and returns it unchanged. */
    method SetRoot(node: Node?) returns (r: Node?)
      modifies this
      ensures r == node && roots == old(roots) + [node]
    {
      roots := roots + [node];
      r := node;
    }

    /**
     * Pops and returns the root of the current block.  Popping an empty
     * stack is undefined, so there must be an open block.
     */
    method GetRoot() returns (r: Node?)
      requires roots != []
      modifies this
      ensures r == old(roots)[|old(roots)| - 1] && roots == old(roots)[..|old(roots)| - 1]
      ensures old(roots) == roots + [r]
    {
      r := roots[|roots| - 1];
      roots := roots[..|roots| - 1];
      assert old(roots) == roots + [r];
    }

    /** The root of the current block, left on the stack. */
    method GetRootNode() returns (r: Node?)
      requires roots != []
      ensures r == roots[|roots| - 1]
    {
      r := roots[|roots| - 1];
    }
  }

  /**
   * How the parser uses the stack when one block opens inside another and
   * both close: each pop returns the root its own push saved, the inner
   * one first, and the stack is back where it started.
   */
  method NestedBlocks(s: RootStack, outer: Node?, inner: Node?) returns (first: Node?, second: Node?)
    modifies s
    ensures first == inner && second == outer && s.roots == old(s.roots)
  {
    ghost var saved := s.roots;
    var _ := s.SetRoot(outer);
    var top := s.GetRootNode();
    assert top == outer;
    var _ := s.SetRoot(inner);
    first := s.GetRoot();
    assert s.roots == saved + [outer];
    top := s.GetRootNode();
    assert top == outer;
    second := s.GetRoot();
    assert s.roots == saved;
  }
}
