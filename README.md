# Parse-tree construction layer of the ante compiler

This project models `src/ptree.cpp`, the layer that the ante parser's grammar
actions call to build the abstract syntax tree. It has four parts:

- **Literal suffixes** (module `Literals`, file `literals.dfy`). An integer
  lexeme may end in `i`/`u` plus a width. A float lexeme may end in `f` plus a
  precision. `ParseIntLit` and `ParseFltLit` are pure functions from the lexeme
  to the stripped text and the resolved type token. Only the second- and
  third-from-last characters are examined. The final character never is, so
  `5i1x` reads as a 16-bit signed literal `5` (see `LiteralExamples`).
- **Nodes and linking** (module `Nodes`, file `nodes.dfy`). `Node` is a class
  with the fields this layer writes: `row`, `col`, `next`, `prev` and `elseN`.
  The construct and its children are a `NodeKind` value fixed at creation.
  `SetNext` and `SetElse` overwrite links in place. `Linked` and `ElseLinked`
  state the chain invariants these operations keep.
- **Node constructors** (module `Factories`, file `factories.dfy`). There is one
  method per construct. Each stamps the new node with the lexer position `at`.
  `MkNamedValNode` walks a chain of variable nodes in a loop and builds the
  chain of named values for a declaration like `i32 a b c`.
- **Block-root stack** (module `Roots`, file `roots.dfy`). The process-wide
  `stack<Node*> roots` becomes a `RootStack` object over a `seq`, top last.

The lexer's current position is a parameter `at: Pos` of every constructor.
Token codes for operators, modifiers and type tags are plain integers. The
numeric literal types form the enumeration `NumType`.

Three details of the code that the model keeps:

- `"16i"` has length 3, so the code tests only its second-from-last
  character, `6`. The lexeme is kept unchanged with the default `I32`.
- Each later named value of a multi-variable declaration gets a new type node
  built with a null extension type (src/ptree.cpp:169). `MkNamedValNode` does
  the same.
- `top()` and `pop()` on an empty `std::stack` are undefined behaviour. So
  `GetRoot` and `GetRootNode` require a non-empty stack.

## Model

| member | source | states |
|---|---|---|
| `Literals.ParseIntLit` | src/ptree.cpp:47-79 | The result is the lexeme with 0, 2 or 3 trailing characters removed and an integer type. An unshortened lexeme gets `I32`. A lexeme of length at most 2 comes back unchanged as `I32`. |
| `Literals.IntLitStrip` | src/ptree.cpp:53-79 | A lexeme is shortened iff it has a recognised three-character suffix or, failing the sign test, a two-character one. The removed characters, except the last, spell the resolved type's suffix. |
| `Literals.IntLitThreeChar` | src/ptree.cpp:54-71 | With `i`/`u` third from last and length over 3: a digit `1`/`3`/`6` strips three characters and gives the 16/32/64-bit type, signed iff the marker is `i`. Any other digit keeps the text and `I32`, and no 8-bit suffix is tried. |
| `Literals.IntLitTwoChar` | src/ptree.cpp:72-78 | Otherwise, with length over 2: `i`/`u` second from last strips two characters and gives `I8`/`U8` by that character. Any other character keeps the text and `I32`. |
| `Literals.IntLitLastCharIgnored` | src/ptree.cpp:53-78 | Replacing the final character changes neither the type nor the amount stripped. |
| `Literals.IntLitRoundTrip` | src/ptree.cpp:53-79 | Any non-empty body followed by any integer type's suffix parses back to that body and type. For 8-bit suffixes the body must not end in `i`/`u`. |
| `Literals.ParseFltLit` | src/ptree.cpp:87-104 | The result is the lexeme with 0 or 3 trailing characters removed and a float type. An unshortened lexeme gets `F64`. |
| `Literals.FltLitStrip` | src/ptree.cpp:92-104 | A float lexeme is shortened iff it is longer than 3 with `f` third from last and `1`/`3`/`6` second from last. The removed characters, except the last, spell the resolved precision's suffix. |
| `Literals.FltLitLastCharIgnored` | src/ptree.cpp:92-104 | Replacing the final character of a float lexeme changes neither precision nor stripping. |
| `Literals.FltLitRoundTrip` | src/ptree.cpp:92-104 | Any non-empty body followed by `f16`, `f32` or `f64` parses back to that body and precision. |
| `Literals.LiteralExamples` | src/ptree.cpp:47-104 | Concrete lexemes: `8` and `16i` stay `I32`, `7i16` gives `7`/`I16`, `100u8` gives `100`/`U8`, `5i1x` gives `5`/`I16`, `12x64` stays `I32`, and `3.14f64` gives `3.14`/`F64`. |
| `Nodes.SetNext` | src/ptree.cpp:32-36 | Returns `nxt` with `cur.next == nxt` and `nxt.prev == cur`. Only those two links change. Appending to a well-linked chain ending at `cur` keeps it well linked. |
| `Nodes.SetElse` | src/ptree.cpp:42-45 | Returns `elif` with `c.elseN == elif`. Only that link changes, so `prev` and `next` stay as they were. Appending to an else-chain ending at `c` extends it. |
| `Nodes.ForwardVisitsChain` | src/ptree.cpp:32-36 | Following `next` k times from the head of a chain built by linking reaches its k-th node. Past a terminated end it reaches null. |
| `Nodes.BackwardReachesHead` | src/ptree.cpp:32-36 | Following `prev` k times from the k-th node of such a chain reaches its head. |
| `Factories.MkIntLitNode` | src/ptree.cpp:47-85 | A fresh, unlinked integer literal node holding the stripped text and type, stamped with the current position. |
| `Factories.MkFltLitNode` | src/ptree.cpp:87-110 | A fresh, unlinked float literal node holding the stripped text and precision, stamped with the current position. |
| `Factories.MkStrLitNode` | src/ptree.cpp:112-117 | A fresh, unlinked string literal node, stamped with the current position. |
| `Factories.MkBoolLitNode` | src/ptree.cpp:119-124 | A fresh, unlinked boolean literal node, stamped with the current position. |
| `Factories.MkModNode` | src/ptree.cpp:126-131 | A fresh, unlinked modifier node, stamped with the current position. |
| `Factories.MkTypeNode` | src/ptree.cpp:133-138 | A fresh, unlinked type node with the given tag, name and extension type, stamped with the current position. |
| `Factories.MkBinOpNode` | src/ptree.cpp:140-145 | A fresh, unlinked binary operation node over its two operands, stamped with the position at reduction time. |
| `Factories.MkRetNode` | src/ptree.cpp:147-152 | A fresh, unlinked return node, stamped with the current position. |
| `Factories.AppendNamedVal` | src/ptree.cpp:169-174 | One loop step: a fresh named value holding a fresh type node with the shared tag and name and no extension type. That type node is unlinked and unstamped, at position 0, 0. The named value is linked after `nxt` both ways and stamped. |
| `Factories.MkNamedValNode` | src/ptree.cpp:160-178 | One named value per variable node, in chain order, with the same names, linked `next`/`prev` and terminated. The first holds the given type node and is not stamped. Each later one holds its own fresh type node with equal tag and name and no extension type, and is stamped. Those type nodes are unlinked and unstamped. |
| `Factories.MkFuncCallNode` | src/ptree.cpp:180-185 | A fresh, unlinked call node, stamped with the current position. |
| `Factories.MkVarNode` | src/ptree.cpp:187-192 | A fresh, unlinked variable node, stamped with the current position. |
| `Factories.MkLetBindingNode` | src/ptree.cpp:194-199 | A fresh, unlinked let-binding node, stamped with the current position. |
| `Factories.MkVarDeclNode` | src/ptree.cpp:201-206 | A fresh, unlinked variable declaration node, stamped with the current position. |
| `Factories.MkVarAssignNode` | src/ptree.cpp:208-213 | A fresh, unlinked assignment node, stamped with the current position. |
| `Factories.MkIfNode` | src/ptree.cpp:215-220 | A fresh conditional whose else branch is `els`, otherwise unlinked and stamped with the current position. |
| `Factories.MkFuncDeclNode` | src/ptree.cpp:222-227 | A fresh, unlinked function declaration node, stamped with the current position. |
| `Factories.MkDataDeclNode` | src/ptree.cpp:229-234 | A fresh, unlinked data declaration node, stamped with the current position. |
| `Roots.RootStack.constructor` | src/ptree.cpp:9 | The root stack starts empty. |
| `Roots.RootStack.SetRoot` | src/ptree.cpp:18-21 | Pushes the node and returns it unchanged. |
| `Roots.RootStack.GetRoot` | src/ptree.cpp:26-30 | On a non-empty stack, returns the most recently pushed node and removes exactly it. |
| `Roots.RootStack.GetRootNode` | src/ptree.cpp:11-13 | On a non-empty stack, returns the top and changes nothing. |
| `Roots.NestedBlocks` | src/ptree.cpp:11-30 | Pushing an outer then an inner root and popping twice returns the inner, then the outer, and restores the stack. |

## Left out

- The lexer is not part of this model. Its current row and column are the parameter `at`.
- The node classes' own constructors and the token constants are not part of this model. A node that no constructor function stamps keeps the initial position 0, 0. Token codes are integers, and literal types are the enumeration `NumType`.
- Memory release is not modelled. This covers `delete varNodes` at the end of `mkNamedValNode` and the freeing of a previously attached chain when `setNext` or `setElse` overwrites an owning link. Overwriting is modelled as link replacement.
- MkNamedValNode: does not model the deletion of the variable chain. The variable nodes are left in place, unchanged.
- Node kinds are checked only where the code relies on them. `SetElse` takes two conditionals. `MkNamedValNode` takes a chain of variable nodes and a type node. The unchecked downcasts of the code are not modelled.
- The grammar engine that decides the order of calls is not part of this model. `NestedBlocks` shows the push/pop discipline it is expected to follow.
- The declarations in the header `include/ptree.h` and its `lextxt` buffer carry no logic.
- SetNext: does not model the case where `nxt` lies inside the chain that `cur` already owns, such as `nxt == cur.next`. In the code, `cur->next.reset(nxt)` then frees `nxt` before line 34 writes `nxt->prev`. That is a use after free. The model has no deallocation, so it returns normally with `nxt.prev == cur`.
- SetElse: does not model the case where `elif` lies inside the else-chain that `c` already owns, such as `elif == c.elseN`. In the code, `c->elseN.reset(elif)` then frees `elif` and returns a freed node. The model returns `elif` with `c.elseN == elif`.
- ParseIntLit: treats a lexeme as a sequence of characters, while the code indexes its bytes. The two agree on ASCII lexemes, which is all the lexer produces for numbers. On non-ASCII text they can differ: `"5ié"` is 4 bytes in UTF-8, so the code keeps it as `I32`, while the model reads it as `5` with `I8`.
- ParseFltLit: treats a lexeme as a sequence of characters, while the code indexes its bytes. The two agree on ASCII lexemes.
