/**
 * Node constructors, one per construct.  Each allocates the node, takes
 * the children it is given, and stamps the node with the lexer's
 * position at the time of the call, `at`.  None of them checks the
 * meaning of what it builds.
 */
module Factories {
  import opened Literals
  import opened Nodes

  /** `n` is stamped with position `at`. */
  ghost predicate StampedAt(n: Node, at: Pos)
    reads n
  {
    n.row == at.row && n.col == at.col
  }

  /** `n` stands for `k`, carries position `at` and is not linked to anything. */
  ghost predicate Made(n: Node, k: NodeKind, at: Pos)
    reads n
  {
    n.kind == k && StampedAt(n, at) && n.next == null && n.prev == null && n.elseN == null
  }

  method MkIntLitNode(s: string, at: Pos) returns (n: Node)
    ensures fresh(n) && Made(n, IntLit(ParseIntLit(s)), at)
  {
    n := new Node(IntLit(ParseIntLit(s)), null);
    n.col, n.row := at.col, at.row;
  }

  method MkFltLitNode(s: string, at: Pos) returns (n: Node)
    ensures fresh(n) && Made(n, FltLit(ParseFltLit(s)), at)
  {
    n := new Node(FltLit(ParseFltLit(s)), null);
    n.col, n.row := at.col, at.row;
  }

  method MkStrLitNode(s: string, at: Pos) returns (n: Node)
    ensures fresh(n) && Made(n, StrLit(s), at)
  {
    n := new Node(StrLit(s), null);
    n.col, n.row := at.col, at.row;
  }

  method MkBoolLitNode(b: char, at: Pos) returns (n: Node)
    ensures fresh(n) && Made(n, BoolLit(b), at)
  {
    n := new Node(BoolLit(b), null);
    n.col, n.row := at.col, at.row;
  }

  method MkModNode(mod: int, at: Pos) returns (n: Node)
    ensures fresh(n) && Made(n, Mod(mod), at)
  {
    n := new Node(Mod(mod), null);
    n.col, n.row := at.col, at.row;
  }

  method MkTypeNode(tag: int, typeName: string, extTy: Node?, at: Pos) returns (n: Node)
    ensures fresh(n) && Made(n, Type(tag, typeName, extTy), at)
  {
    n := new Node(Type(tag, typeName, extTy), null);
    n.col, n.row := at.col, at.row;
  }

  method MkBinOpNode(op: int, lhs: Node?, rhs: Node?, at: Pos) returns (n: Node)
    ensures fresh(n) && Made(n, BinOp(op, lhs, rhs), at)
  {
    n := new Node(BinOp(op, lhs, rhs), null);
    n.col, n.row := at.col, at.row;
  }

  method MkRetNode(expr: Node?, at: Pos) returns (n: Node)
    ensures fresh(n) && Made(n, Ret(expr), at)
  {
    n := new Node(Ret(expr), null);
    n.col, n.row := at.col, at.row;
  }

  /**
   * `vars` is the chain of variable nodes handed to a multi-variable
   * declaration: non-empty, joined through `next`, terminated by null.
   */
  ghost predicate VarChain(vars: seq<Node>)
    reads NodeSet(vars)
  {
    |vars| > 0 &&
    (forall i :: 0 <= i < |vars| ==> vars[i].kind.Var?) &&
    (forall i :: 0 <= i < |vars| - 1 ==> vars[i].next == vars[i + 1]) &&
    vars[|vars| - 1].next == null
  }

  /** No node occurs twice in `ns`. */
  ghost predicate Distinct(ns: seq<Node?>) {
    forall i, j :: 0 <= i < j < |ns| ==> ns[i] != ns[j]
  }

  /** The type nodes held by the named values of `ns`, after the first. */
  ghost function LaterTypes(ns: seq<Node>): seq<Node?> {
    seq(if |ns| == 0 then 0 else |ns| - 1, k requires 0 <= k < |ns| - 1 => TypeOf(ns[k + 1]))
  }

  /** The type node a named value holds. */
  function TypeOf(n: Node): Node? {
    if n.kind.NamedVal? then n.kind.tExpr else null
  }

  /**
   * `n` is a named value for `name` whose type node has the tag and
   * name of `ty` and no extension type.
   */
  ghost predicate NamedCopy(n: Node, name: string, ty: NodeKind)
    requires ty.Type?
  {
    n.kind.NamedVal? && n.kind.name == name && n.kind.tExpr != null &&
    n.kind.tExpr.kind == Type(ty.tag, ty.typeName, null)
  }

  /** `t` is unlinked and keeps the initial position: nothing stamped it. */
  ghost predicate Unstamped(t: Node?)
    reads t
  {
    t != null && t.row == 0 && t.col == 0 && t.next == null && t.prev == null
  }

  /** `n` has no else branch and is stamped with `at`. */
  ghost predicate Settled(n: Node, at: Pos)
    reads n
  {
    n.elseN == null && n.row == at.row && n.col == at.col
  }

  /**
   * One step of a multi-variable declaration: a new named value for
   * `name`, holding a new type node with the tag and name of `ty` and no
   * extension type, stamped with `at` and linked after `nxt`, the end of
   * the sibling chain `chain`.
   */
  method AppendNamedVal(nxt: Node, name: string, ty: NodeKind, at: Pos, ghost chain: seq<Node>)
    returns (named: Node)
    requires ty.Type? && Linked(chain) && chain != [] && chain[|chain| - 1] == nxt
    requires nxt !in chain[..|chain| - 1]
    modifies nxt`next
    ensures fresh(named) && fresh(TypeOf(named)) && NamedCopy(named, name, ty)
    ensures Unstamped(TypeOf(named))
    ensures nxt.next == named && named.prev == nxt && named.next == null
    ensures Settled(named, at) && Linked(chain + [named])
    ensures Distinct(chain) ==> Distinct(chain + [named])
    ensures Distinct(LaterTypes(chain)) ==> Distinct(LaterTypes(chain + [named]))
  {
    var tyNode := new Node(Type(ty.tag, ty.typeName, null), null);
    named := new Node(NamedVal(name, tyNode), null);
    nxt.next := named;
    named.prev := nxt;
    named.col, named.row := at.col, at.row;
    var ext := chain + [named];
    assert LaterTypes(ext) == LaterTypes(chain) + [tyNode];
    forall k | 0 <= k < |ext| - 1
      ensures ext[k].next == ext[k + 1] && ext[k + 1].prev == ext[k]
    {
      if k < |chain| - 1 {
        assert chain[k] in chain[..|chain| - 1];
        assert old(chain[k].next) == chain[k + 1] && old(chain[k + 1].prev) == chain[k];
      }
    }
  }

  /**
   * The declaration `T a b c` of several variables sharing one type:
   * one named value per variable node, in chain order and with the same
   * names, linked through `next` and `prev`.  The first holds the given
   * type node itself and keeps its initial position; each later one
   * holds a new, unlinked and unstamped type node of its own with the
   * same tag and name and no extension type, and is stamped with `at`.  The variable chain itself
   * is not changed.
   */
  method MkNamedValNode(varNodes: Node, tExpr: Node, ghost vars: seq<Node>, at: Pos)
    returns (ret: Node, ghost out: seq<Node>)
    requires VarChain(vars) && vars[0] == varNodes
    requires tExpr.kind.Type?
    ensures |out| == |vars| && out[0] == ret
    ensures Linked(out) && out[|out| - 1].next == null && ret.prev == null
    ensures Distinct(out)
    ensures forall i :: 0 <= i < |out| ==> fresh(out[i])
    ensures ret.kind == NamedVal(vars[0].kind.name, tExpr)
    ensures ret.elseN == null && ret.row == 0 && ret.col == 0
    ensures forall i :: 0 < i < |out| ==>
      NamedCopy(out[i], vars[i].kind.name, tExpr.kind) && fresh(TypeOf(out[i])) &&
      Unstamped(TypeOf(out[i])) && Settled(out[i], at)
    ensures Distinct(LaterTypes(out))
  {
    var ty := tExpr.kind;
    var vn := varNodes;
    ret := new Node(NamedVal(vn.kind.name, tExpr), null);
    var nxt := ret;
    out := [ret];
    var i := 1;
    while vn.next != null
      invariant 1 <= i <= |vars| && |out| == i
      invariant vn == vars[i - 1] && nxt == out[i - 1] && out[0] == ret
      invariant vn.next == if i < |vars| then vars[i] else null
      invariant Linked(out) && nxt.next == null && ret.prev == null
      invariant Distinct(out)
      invariant forall k :: 0 <= k < i ==> fresh(out[k])
      invariant ret.elseN == null && ret.row == 0 && ret.col == 0
      invariant forall k :: 0 < k < i ==>
        NamedCopy(out[k], vars[k].kind.name, ty) && fresh(TypeOf(out[k])) &&
        Unstamped(TypeOf(out[k])) && Settled(out[k], at)
      invariant Distinct(LaterTypes(out))
      decreases |vars| - i
    {
      vn := vn.next;
      assert nxt !in out[..i - 1];
      var named := AppendNamedVal(nxt, vn.kind.name, ty, at, out);
      nxt := named;
      out := out + [named];
      i := i + 1;
    }
  }

  method MkFuncCallNode(name: string, params: Node?, at: Pos) returns (n: Node)
    ensures fresh(n) && Made(n, FuncCall(name, params), at)
  {
    n := new Node(FuncCall(name, params), null);
    n.col, n.row := at.col, at.row;
  }

  method MkVarNode(name: string, at: Pos) returns (n: Node)
    ensures fresh(n) && Made(n, Var(name), at)
  {
    n := new Node(Var(name), null);
    n.col, n.row := at.col, at.row;
  }

  method MkLetBindingNode(name: string, mods: Node?, tExpr: Node?, expr: Node?, at: Pos)
    returns (n: Node)
    ensures fresh(n) && Made(n, LetBinding(name, mods, tExpr, expr), at)
  {
    n := new Node(LetBinding(name, mods, tExpr, expr), null);
    n.col, n.row := at.col, at.row;
  }

  method MkVarDeclNode(name: string, mods: Node?, tExpr: Node?, expr: Node?, at: Pos)
    returns (n: Node)
    ensures fresh(n) && Made(n, VarDecl(name, mods, tExpr, expr), at)
  {
    n := new Node(VarDecl(name, mods, tExpr, expr), null);
    n.col, n.row := at.col, at.row;
  }

  method MkVarAssignNode(target: Node?, expr: Node?, at: Pos) returns (n: Node)
    ensures fresh(n) && Made(n, VarAssign(target, expr), at)
  {
    n := new Node(VarAssign(target, expr), null);
    n.col, n.row := at.col, at.row;
  }

  /** A conditional; `els`, when given, becomes its else branch. */
  method MkIfNode(cond: Node?, body: Node?, els: Node?, at: Pos) returns (n: Node)
    ensures fresh(n) && n.kind == If(cond, body) && n.elseN == els
    ensures StampedAt(n, at) && n.next == null && n.prev == null
  {
    n := new Node(If(cond, body), els);
    n.col, n.row := at.col, at.row;
  }

  method MkFuncDeclNode(name: string, mods: Node?, tExpr: Node?, params: Node?, body: Node?, at: Pos)
    returns (n: Node)
    ensures fresh(n) && Made(n, FuncDecl(name, mods, tExpr, params, body), at)
  {
    n := new Node(FuncDecl(name, mods, tExpr, params, body), null);
    n.col, n.row := at.col, at.row;
  }

  method MkDataDeclNode(name: string, body: Node?, at: Pos) returns (n: Node)
    ensures fresh(n) && Made(n, DataDecl(name, body), at)
  {
    n := new Node(DataDecl(name, body), null);
    n.col, n.row := at.col, at.row;
  }
}
