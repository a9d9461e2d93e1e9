/**
 * The abstract syntax tree the translator walks: one `Node` per libclang cursor,
 * carrying what the code queries of it (kind, spelling, type facts, operator codes,
 * tokens, literal text) and its children in visiting order.
 */
module Syntax {
  import opened Wrappers

  /** The cursor kinds the translator tests for; every other kind is `OtherKind`. */
  datatype Kind =
    | EnumConstantDecl | UnaryExpr | DeclRefExpr | CompoundAssignOperator | BinaryOperator
    | UnaryOperator | CallExpr | ReturnStmt | IfStmt | ForStmt | CaseStmt | DefaultStmt
    | SwitchStmt | DoStmt | WhileStmt | LabelRef | GotoStmt | LabelStmt | ConditionalOperator
    | MemberRefExpr | IntegerLiteral | FloatingLiteral | CharacterLiteral | StringLiteral
    | VarDecl | DeclStmt | CompoundStmt | ArraySubscriptExpr | InitListExpr | ParenExpr
    | BreakStmt | ContinueStmt | CStyleCastExpr | UnexposedExpr | TypeRef
    | StructDecl | UnionDecl | FieldDecl | EnumDecl | FunctionDecl
    | OtherKind(name: string)

  /** The binary opcodes, named as the source names them; the bitwise `And`/`Or` are the ones AppendGZ tests. */
  datatype BinOp =
    | PtrMemD | PtrMemI | Mul | Div | Rem | Add | Sub | Shl | Shr | LT | GT | LE | GE | EQ | NE
    | And | Xor | Or | LAnd | LOr | Assign | MulAssign | DivAssign | RemAssign | AddAssign
    | SubAssign | ShlAssign | ShrAssign | AndAssign | XorAssign | OrAssign | Comma
    | NoBinOp

  /** The unary opcodes; `TypeTrait` is the code 99999 reported for `sizeof`/`alignof`. */
  datatype UnOp =
    | PostInc | PostDec | PreInc | PreDec | AddrOf | Deref | Plus | Minus | Not | LNot
    | Real | Imag | Extension | Coawait | TypeTrait | NoUnOp

  /**
   * What the code asks of a cursor's type. `rustType` is the cursor's rendered type
   * (`CursorInfo.RustType`), `pointeeType` the rendered element or pointee type and
   * `arraySize` the constant array length.
   */
  datatype TypeInfo = TypeInfo(
    isPointer: bool, isArray: bool, isNumeric: bool, isVoid: bool,
    rustType: string, pointeeType: string, arraySize: int)

  /** A function parameter: its spelling and its rendered type (`ToCSharpTypeString(true)`). */
  datatype Param = Param(spelling: string, typeName: string)

  /**
   * One cursor. `siblingName` is the spelling of the declaration the provider finds
   * for an anonymous record or enum by scanning its semantic parent's children
   * (empty when there is none). `resultType` and `params` describe a function declaration.
   */
  datatype Node = Node(
    kind: Kind, spelling: string, ty: TypeInfo,
    binOp: BinOp, unOp: UnOp, opString: string,
    tokens: seq<string>, literal: string,
    inSystemHeader: bool, siblingName: string,
    resultType: TypeInfo, params: seq<Param>,
    children: seq<Node>)

  /**
   * The child counts without which the translator dereferences a missing child:
   * `ProcessChildByIndex` on an index that does not exist, or a null result
   * (a `for` with two children, a `ParenExpr` without operand inside AppendGZ).
   */
  predicate ShapeOk(n: Node)
  {
    var k := |n.children|;
    match n.kind
    case EnumConstantDecl => k >= 1
    case UnaryOperator => k >= 1
    case CallExpr => k >= 1
    case DefaultStmt => k >= 1
    case GotoStmt => k >= 1
    case MemberRefExpr => k >= 1
    case CStyleCastExpr => k >= 1
    case ParenExpr => k >= 1
    case BinaryOperator => k >= 2
    case CompoundAssignOperator => k >= 2
    case IfStmt => k >= 2
    case CaseStmt => k >= 2
    case SwitchStmt => k >= 2
    case DoStmt => k >= 2
    case WhileStmt => k >= 2
    case ArraySubscriptExpr => k >= 2
    case ConditionalOperator => k >= 3
    case ForStmt => k == 1 || k == 3 || k == 4
    case _ => true
  }

  predicate WellFormed(n: Node)
  {
    ShapeOk(n) && forall i :: 0 <= i < |n.children| ==> WellFormed(n.children[i])
  }

  predicate IsSwitchPart(k: Kind)
  {
    k == CaseStmt || k == DefaultStmt || k == SwitchStmt
  }

  /** No `switch`, `case` or `default` anywhere in the subtree. */
  predicate SwitchFree(n: Node)
  {
    !IsSwitchPart(n.kind) && forall i :: 0 <= i < |n.children| ==> SwitchFree(n.children[i])
  }

  /**
   * The string extension methods and opcode classifiers the translator calls but that are
   * not part of this model; each is an arbitrary function, so nothing proved here depends
   * on how they are written.
   */
  datatype Utility = Utility(
    parentize: string -> string,
    deparentize: string -> string,
    ensureStatementFinished: string -> string,
    curlize: string -> string,
    fixSpecialWords: string -> string,
    tryParseNumber: string -> Option<int>,
    isBooleanOperator: BinOp -> bool,
    isLogicalBinaryOperator: BinOp -> bool,
    isLogicalBooleanOperator: BinOp -> bool,
    isAssign: BinOp -> bool,
    isBinaryOperator: BinOp -> bool,
    isUnaryOperatorPre: UnOp -> bool)

  /** `CursorProcessResult.GetExpression()`: a missing result reads as the empty string. */
  function GetExpression(r: Option<string>): string
  {
    if r.Some? then r.value else ""
  }
}
