/**
 * Parse-tree nodes and the two linking operations.
 *
 * Every node carries the source position it was stamped with, an owning
 * `next` link to the rest of its sibling chain and a non-owning `prev`
 * back-link.  A conditional node additionally owns `elseN`, the next
 * branch of its elif/else chain.  The construct a node stands for, with
 * its children, is fixed when the node is made and is kept in `kind`.
 */
module Nodes {
  import opened Literals

  /** The lexer's current row and column. */
  datatype Pos = Pos(row: int, col: int)

  /**
   * The constructs of the language.  Operator, modifier and type tags are
   * the parser's token codes; absent children are null.
   */
  datatype NodeKind =
    | IntLit(lit: Lit)
    | FltLit(lit: Lit)
    | StrLit(str: string)
    | BoolLit(b: char)
    | Mod(mod: int)
    | Type(tag: int, typeName: string, extTy: Node?)
    | BinOp(op: int, lhs: Node?, rhs: Node?)
    | Ret(expr: Node?)
    | NamedVal(name: string, tExpr: Node?)
    | FuncCall(name: string, params: Node?)
    | Var(name: string)
    | LetBinding(name: string, mods: Node?, tExpr: Node?, expr: Node?)
    | VarDecl(name: string, mods: Node?, tExpr: Node?, expr: Node?)
    | VarAssign(target: Node?, expr: Node?)
    | If(cond: Node?, body: Node?)
    | FuncDecl(name: string, mods: Node?, tExpr: Node?, params: Node?, body: Node?)
    | DataDecl(name: string, body: Node?)

  class Node {
    const kind: NodeKind
    var row: int
    var col: int
    var next: Node?
    var prev: Node?
    var elseN: Node?

    /**
     * A new node, not yet linked and not yet stamped: its position is
     * the initial 0, 0 until a constructor function stamps it.
     */
    constructor (kind: NodeKind, elseN: Node?)
      ensures this.kind == kind && this.elseN == elseN
      ensures row == 0 && col == 0 && next == null && prev == null
    {
      this.kind := kind;
      this.elseN := elseN;
      row, col := 0, 0;
      next, prev := null, null;
    }
  }

  /** The set of nodes in a sequence, for frames. */
  function NodeSet(ns: seq<Node>): set<Node> {
    set n | n in ns
  }

  /**
   * `ns` is a sibling chain: each node's `next` is its successor and each
   * successor's `prev` points back.
   */
  ghost predicate Linked(ns: seq<Node>)
    reads NodeSet(ns)
  {
    forall i :: 0 <= i < |ns| - 1 ==> ns[i].next == ns[i + 1] && ns[i + 1].prev == ns[i]
  }

  /** `ns` is an if/elif/else chain joined through `elseN`. */
  ghost predicate ElseLinked(ns: seq<Node>)
    reads NodeSet(ns)
  {
    (forall i :: 0 <= i < |ns| ==> ns[i].kind.If?) &&
    forall i :: 0 <= i < |ns| - 1 ==> ns[i].elseN == ns[i + 1]
  }

  /** The node reached from `n` by following `next` `k` times. */
  ghost function Forward(n: Node?, k: nat): Node?
    reads *
    decreases k
  {
    if k == 0 || n == null then n else Forward(n.next, k - 1)
  }

  /** The node reached from `n` by following `prev` `k` times. */
  ghost function Backward(n: Node?, k: nat): Node?
    reads *
    decreases k
  {
    if k == 0 || n == null then n else Backward(n.prev, k - 1)
  }

  /**
   * Walking a sibling chain forward from its head visits its nodes in
   * order and, past a terminated last node, reaches null.
   */
  lemma {:induction false} ForwardVisitsChain(ns: seq<Node>, k: nat)
    requires Linked(ns) && k <= |ns|
    requires k == |ns| ==> ns != [] && ns[|ns| - 1].next == null
    ensures Forward(ns[0], k) == if k < |ns| then ns[k] else null
  {
    if k > 0 {
      assert Forward(ns[0], k) == Forward(ns[0].next, k - 1);
      if |ns| > 1 {
        assert Linked(ns[1..]);
        ForwardVisitsChain(ns[1..], k - 1);
      }
    }
  }

  /** Walking back through `prev` from the k-th node of a chain reaches its head. */
  lemma {:induction false} BackwardReachesHead(ns: seq<Node>, k: nat)
    requires Linked(ns) && k < |ns|
    ensures Backward(ns[k], k) == ns[0]
  {
    if k > 0 {
      assert ns[k].prev == ns[k - 1];
      assert Linked(ns[..k]);
      BackwardReachesHead(ns[..k], k - 1);
    }
  }

  /**
   * Makes `nxt` the successor of `cur`, points `nxt` back at `cur` and
   * returns `nxt`.  Any chain `cur` owned before is dropped, not freed.
   * Appended to a chain ending at `cur`, `nxt` extends it.
   */
  method SetNext(cur: Node, nxt: Node, ghost chain: seq<Node>) returns (r: Node)
    modifies cur`next, nxt`prev
    ensures r == nxt && cur.next == nxt && nxt.prev == cur
    ensures cur != nxt ==> cur.prev == old(cur.prev) && nxt.next == old(nxt.next)
    ensures old(Linked(chain)) && chain != [] && chain[|chain| - 1] == cur &&
      cur !in chain[..|chain| - 1] && nxt !in chain
      ==> Linked(chain + [nxt])
  {
    cur.next := nxt;
    nxt.prev := cur;
    r := nxt;
    if old(Linked(chain)) && chain != [] && chain[|chain| - 1] == cur &&
      cur !in chain[..|chain| - 1] && nxt !in chain
    {
      var ext := chain + [nxt];
      forall i | 0 <= i < |ext| - 1
        ensures ext[i].next == ext[i + 1] && ext[i + 1].prev == ext[i]
      {
        if i < |chain| - 1 {
          assert chain[i] in chain[..|chain| - 1];
          assert old(chain[i].next) == chain[i + 1] && old(chain[i + 1].prev) == chain[i];
        }
      }
    }
  }

  /**
   * Makes the conditional `elif` the else branch of the conditional `c`
   * and returns it; `prev` and `next` are left alone.  Appended to an
   * else-chain ending at `c`, `elif` extends it.
   */
  method SetElse(c: Node, elif: Node, ghost chain: seq<Node>) returns (r: Node)
    requires c.kind.If? && elif.kind.If?
    modifies c`elseN
    ensures r == elif && c.elseN == elif
    ensures old(ElseLinked(chain)) && chain != [] && chain[|chain| - 1] == c &&
      c !in chain[..|chain| - 1]
      ==> ElseLinked(chain + [elif])
  {
    c.elseN := elif;
    r := elif;
    if old(ElseLinked(chain)) && chain != [] && chain[|chain| - 1] == c &&
      c !in chain[..|chain| - 1]
    {
      var ext := chain + [elif];
      forall i | 0 <= i < |ext| - 1
        ensures ext[i].elseN == ext[i + 1]
      {
        if i < |chain| - 1 {
          assert chain[i] in chain[..|chain| - 1];
          assert old(chain[i].elseN) == chain[i + 1];
        }
      }
    }
  }
}
