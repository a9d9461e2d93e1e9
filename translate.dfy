/**
 * The node translator of ConversionProcessor (InternalProcess/Process, AppendGZ,
 * ReplaceCommas) as functions. The shared fields `_switchCount` and
 * `_switchExpression` are threaded explicitly: every rule takes the switch state
 * before it and returns the text it produces together with the switch state after
 * it, in the order the C# processes (and re-processes) children.
 */
module Translate {
  import opened Wrappers
  import opened Strings
  import opened Syntax
  import opened Registry

  /** `ConversionProcessor.State`: the pass being run. */
  datatype State = Structs | GlobalVariables | Enums | Functions

  /** What the translator reads but never writes: `_returnType`, `_state`, `_functionInfos`. */
  datatype Env = Env(returnType: TypeInfo, state: State, functions: FunctionTable, util: Utility)

  /** `_switchCount` and `_switchExpression`. */
  datatype SwitchState = SwitchState(count: int, expression: string)

  /** The text of one `CursorProcessResult` and the switch state after computing it. */
  datatype Out = Out(text: string, sw: SwitchState)

  /** The texts of a run of children, in order, and the switch state after the last. */
  datatype Many = Many(texts: seq<string>, sw: SwitchState)

  /** The source's null-pointer sentinel. */
  const NullPtr: string := "std::ptr::null_mut()"

  const Uninitialized: string := "unsafe {std::mem::uninitialized()}"

  /** The translation of one node (`Process`, 1353-1363, dispatching on `InternalProcess`, 575-1351). */
  function Tr(n: Node, env: Env, sw: SwitchState): Out
    requires WellFormed(n)
    decreases n, 3, 0
  {
    var cs := n.children;
    match n.kind
    case EnumConstantDecl => TrEnumConstant(n, env, sw)
    case UnaryExpr => TrUnaryExpr(n, env, sw)
    case DeclRefExpr => Out(DeclRefText(n, env), sw)
    case CompoundAssignOperator => TrBinary(n, env, sw)
    case BinaryOperator => TrBinary(n, env, sw)
    case UnaryOperator => TrUnaryOperator(n, env, sw)
    case CallExpr => TrCall(n, env, sw)
    case ReturnStmt => TrReturn(n, env, sw)
    case IfStmt => TrIf(n, env, sw)
    case ForStmt => TrFor(n, env, sw)
    case CaseStmt => TrCase(n, env, sw)
    case DefaultStmt => TrDefault(n, env, sw)
    case SwitchStmt => TrSwitch(n, env, sw)
    case DoStmt => TrDo(n, env, sw)
    case WhileStmt => TrWhile(n, env, sw)
    case LabelRef => Out(n.spelling, sw)
    case GotoStmt => TrGoto(n, env, sw)
    case LabelStmt => TrList(n, env, sw)
    case ConditionalOperator => TrConditional(n, env, sw)
    case MemberRefExpr => TrMember(n, env, sw)
    case IntegerLiteral => Out(IntegerText(n), sw)
    case FloatingLiteral => Out(FloatingText(n), sw)
    case CharacterLiteral => Out(CharacterText(n.literal), sw)
    case StringLiteral => Out(StringText(n.spelling), sw)
    case VarDecl => TrVarDecl(n, env, sw)
    case DeclStmt => TrList(n, env, sw)
    case CompoundStmt => TrList(n, env, sw)
    case ArraySubscriptExpr => TrSubscript(n, env, sw)
    case InitListExpr => TrList(n, env, sw)
    case ParenExpr => if |cs| > 0 then Tr(cs[0], env, sw) else Out("", sw)
    case BreakStmt => Out(",", sw)
    case ContinueStmt => Out("continue", sw)
    case CStyleCastExpr => Tr(cs[|cs| - 1], env, sw)
    case UnexposedExpr => TrUnexposed(n, env, sw)
    case _ => if |cs| == 0 then Out("", sw) else Tr(cs[|cs| - 1], env, sw)
  }

  /** `NAME = value` (578-584). */
  function TrEnumConstant(n: Node, env: Env, sw: SwitchState): Out
    requires WellFormed(n) && n.kind == EnumConstantDecl
    decreases n, 2, 0
  {
    var e := Tr(n.children[0], env, sw);
    Out(n.spelling + " = " + e.text, e.sw)
  }

  function TrUnaryOperator(n: Node, env: Env, sw: SwitchState): Out
    requires WellFormed(n) && n.kind == UnaryOperator
    decreases n, 2, 0
  {
    var a := Tr(n.children[0], env, sw);
    Out(UnaryText(n.unOp, n.opString, a.text, env.util), a.sw)
  }

  function TrReturn(n: Node, env: Env, sw: SwitchState): Out
    requires WellFormed(n) && n.kind == ReturnStmt
    decreases n, 2, 0
  {
    if |n.children| > 0 then
      var c := Tr(n.children[0], env, sw);
      Out(ReturnText(env.returnType, c.text), c.sw)
    else Out(ReturnText(env.returnType, ""), sw)
  }

  /** `case v: body` (904-919): the arm text uses the switch state after its children; the arm counter grows. */
  function TrCase(n: Node, env: Env, sw: SwitchState): Out
    requires WellFormed(n) && n.kind == CaseStmt
    decreases n, 2, 0
  {
    var v := Tr(n.children[0], env, sw);
    var b := Tr(n.children[1], env, v.sw);
    Out(CaseText(b.sw, v.text, b.text), SwitchState(b.sw.count + 1, b.sw.expression))
  }

  /** `default: body` (921-934). */
  function TrDefault(n: Node, env: Env, sw: SwitchState): Out
    requires WellFormed(n) && n.kind == DefaultStmt
    decreases n, 2, 0
  {
    var b := Tr(n.children[0], env, sw);
    Out(DefaultText(b.sw, b.text), SwitchState(b.sw.count + 1, b.sw.expression))
  }

  /** `switch` (936-942): the counter restarts, the scrutinee text is captured, and a `}` closes the chain. */
  function TrSwitch(n: Node, env: Env, sw: SwitchState): Out
    requires WellFormed(n) && n.kind == SwitchStmt
    decreases n, 2, 0
  {
    var s := Tr(n.children[0], env, SwitchState(0, sw.expression));
    var b := Tr(n.children[1], env, SwitchState(s.sw.count, s.text));
    Out(b.text + "}", b.sw)
  }

  /** `while` (967-974). */
  function TrWhile(n: Node, env: Env, sw: SwitchState): Out
    requires WellFormed(n) && n.kind == WhileStmt
    decreases n, 2, 0
  {
    var u := env.util;
    var c := Tr(n.children[0], env, sw);
    var g := AppendGZ(n.children[0], c.text, env, c.sw);
    var e := Tr(n.children[1], env, g.sw);
    Out("while (" + g.text + ") " + u.curlize(u.ensureStatementFinished(e.text)), e.sw)
  }

  /** `goto` (978-983). */
  function TrGoto(n: Node, env: Env, sw: SwitchState): Out
    requires WellFormed(n) && n.kind == GotoStmt
    decreases n, 2, 0
  {
    var l := Tr(n.children[0], env, sw);
    Out("goto " + l.text, l.sw)
  }

  /** Labels, declaration lists, blocks and initializer lists: every child in order (985-1000, 1211-1272). */
  function TrList(n: Node, env: Env, sw: SwitchState): Out
    requires WellFormed(n) && n.kind in {LabelStmt, DeclStmt, CompoundStmt, InitListExpr}
    decreases n, 2, 0
  {
    var ts := Texts(n, 0, |n.children|, env, sw);
    Out(ListText(n.kind, n.spelling, ts.texts, env.util), ts.sw)
  }

  function ListText(k: Kind, spelling: string, texts: seq<string>, u: Utility): string
  {
    match k
    case LabelStmt => spelling + ":;\n" + Join("", texts)
    case DeclStmt => Statements(texts, u)
    case CompoundStmt => BlockText(texts, u)
    case _ => "[ " + Join(", ", texts) + " ]"
  }

  /** `c ? a : b` (1002-1037). */
  function TrConditional(n: Node, env: Env, sw: SwitchState): Out
    requires WellFormed(n) && n.kind == ConditionalOperator
    decreases n, 2, 0
  {
    var cs := n.children;
    var c := Tr(cs[0], env, sw);
    var a := Tr(cs[1], env, c.sw);
    var b := Tr(cs[2], env, a.sw);
    Out("if " + c.text + "{" + a.text + "} else {" + b.text + "}", b.sw)
  }

  /** Member access (1038-1047). */
  function TrMember(n: Node, env: Env, sw: SwitchState): Out
    requires WellFormed(n) && n.kind == MemberRefExpr
    decreases n, 2, 0
  {
    var a := Tr(n.children[0], env, sw);
    Out(a.text + "." + env.util.fixSpecialWords(n.spelling), a.sw)
  }

  /** Subscripts (1244-1250). */
  function TrSubscript(n: Node, env: Env, sw: SwitchState): Out
    requires WellFormed(n) && n.kind == ArraySubscriptExpr
    decreases n, 2, 0
  {
    var a := Tr(n.children[0], env, sw);
    var i := Tr(n.children[1], env, a.sw);
    Out(a.text + "[" + i.text + "]", i.sw)
  }

  /** The last child, with a pointer-typed literal zero turned into the null sentinel (1309-1333). */
  function TrUnexposed(n: Node, env: Env, sw: SwitchState): Out
    requires WellFormed(n) && n.kind == UnexposedExpr
    decreases n, 2, 0
  {
    var cs := n.children;
    if |cs| == 0 then Out("", sw)
    else
      var e := Tr(cs[|cs| - 1], env, sw);
      Out(if n.ty.isPointer && env.util.deparentize(e.text) == "0" then NullPtr else e.text, e.sw)
  }

  /** Children `lo..hi` of `n` processed in order (the StringBuilder loops). */
  function Texts(n: Node, lo: nat, hi: nat, env: Env, sw: SwitchState): (r: Many)
    requires WellFormed(n) && lo <= hi <= |n.children|
    ensures |r.texts| == hi - lo
    decreases n, 1, hi
  {
    if hi == lo then Many([], sw)
    else
      var p := Texts(n, lo, hi - 1, env, sw);
      var c := Tr(n.children[hi - 1], env, p.sw);
      Many(p.texts + [c.text], c.sw)
  }

  /** `sizeof`/`alignof` and other unary expressions (586-621). */
  function TrUnaryExpr(n: Node, env: Env, sw: SwitchState): Out
    requires WellFormed(n) && n.kind == UnaryExpr
    decreases n, 2, 0
  {
    if |n.children| > 0 then
      var e := Tr(n.children[0], env, sw);
      Out(UnaryExprText(n, Some(e.text)), e.sw)
    else Out(UnaryExprText(n, None), sw)
  }

  function UnaryExprText(n: Node, operand: Option<string>): string
    requires operand.Some? ==> |n.children| > 0
  {
    if n.unOp == TypeTrait && operand.Some? then
      if |n.tokens| > 0 && n.tokens[0] == "__alignof" then "4"
      else if operand.value != "" then "std::mem::size_of(" + operand.value + ")"
      else if n.children[0].kind == TypeRef then "std::mem::size_of::<" + n.children[0].ty.rustType + ">()"
      else Join("", n.tokens)
    else Join("", n.tokens)
  }

  /** An identifier: special words fixed, a registered function renamed (622-634). */
  function DeclRefText(n: Node, env: Env): string
  {
    var r := env.util.fixSpecialWords(n.spelling);
    if r in env.functions.infos then env.functions.infos[r].config.name else r
  }

  /** Binary and compound-assignment operators (635-697). */
  function TrBinary(n: Node, env: Env, sw: SwitchState): Out
    requires WellFormed(n) && (n.kind == BinaryOperator || n.kind == CompoundAssignOperator)
    decreases n, 2, 0
  {
    var u := env.util;
    var op := n.binOp;
    var lhs := n.children[0];
    var rhs := n.children[1];
    var a := Tr(lhs, env, sw);
    var b := Tr(rhs, env, a.sw);
    var ga := if u.isLogicalBinaryOperator(op) then AppendGZ(lhs, a.text, env, b.sw) else Out(a.text, b.sw);
    var gb := if u.isLogicalBinaryOperator(op) then AppendGZ(rhs, b.text, env, ga.sw) else Out(b.text, ga.sw);
    var cb :=
      if u.isAssign(op) && op != ShlAssign && op != ShrAssign && !n.ty.isPointer
         && rhs.kind == ParenExpr && |rhs.children| > 0 then
        var bb := Tr(rhs.children[0], env, gb.sw);
        var inner := rhs.children[0];
        Out(if inner.kind == BinaryOperator && u.isLogicalBooleanOperator(inner.binOp) then bb.text else gb.text, bb.sw)
      else gb;
    Out(BinaryText(op, n.opString, lhs.ty.isPointer, ga.text, cb.text, u), cb.sw)
  }

  /** The text of a binary operator from its operands' texts (673-696). */
  function BinaryText(op: BinOp, opString: string, lhsIsPointer: bool, a: string, b: string, u: Utility): string
  {
    if lhsIsPointer && op == Add then a + "[" + b + "]"
    else
      var b' := if lhsIsPointer && (op == Assign || u.isBooleanOperator(op)) && u.deparentize(b) == "0" then NullPtr else b;
      var s := a + " " + opString + " " + b';
      if u.isAssign(op) then s + ";" else s
  }

  /** The text of a unary operator from its operand's text (698-733). */
  function UnaryText(op: UnOp, opString: string, a: string, u: Utility): string
  {
    if op == PreInc || op == PostInc then a + " += 1"
    else if op == PreDec || op == PostDec then a + " -= 1"
    else
      var str := if op == AddrOf || op == Deref then "" else if op == Not then "!" else opString;
      if u.isUnaryOperatorPre(op) then str + a else a + str
  }

  /** Calls (735-782). */
  function TrCall(n: Node, env: Env, sw: SwitchState): Out
    requires WellFormed(n) && n.kind == CallExpr
    decreases n, 2, 0
  {
    var f := Tr(n.children[0], env, sw);
    var name := ResolveCallee(env.functions, env.util.deparentize(f.text));
    var args := Texts(n, 1, |n.children|, env, f.sw);
    Out(CallText(name, args.texts), args.sw)
  }

  function CallText(name: string, args: seq<string>): string
  {
    name + "(" + Join(", ", args) + ")"
  }

  /** `return` (783-811). */
  function ReturnText(returnType: TypeInfo, ret: string): string
  {
    if !returnType.isVoid && !returnType.isPointer then "return " + ret
    else
      var r := if returnType.isPointer && ret == "0" then NullPtr else ret;
      if r == "" then "return" else "return " + r
  }

  /** `if` (812-833). */
  function TrIf(n: Node, env: Env, sw: SwitchState): Out
    requires WellFormed(n) && n.kind == IfStmt
    decreases n, 2, 0
  {
    var cs := n.children;
    var c := Tr(cs[0], env, sw);
    var g := AppendGZ(cs[0], c.text, env, c.sw);
    var e := Tr(cs[1], env, g.sw);
    if |cs| > 2 then
      var el := Tr(cs[2], env, e.sw);
      Out(IfText(g.text, e.text, Some(el.text), env.util), el.sw)
    else Out(IfText(g.text, e.text, None, env.util), e.sw)
  }

  function IfText(cond: string, exec: string, els: Option<string>, u: Utility): string
  {
    var thenPart := if exec != "" then u.curlize(u.ensureStatementFinished(exec)) else exec;
    var elsePart := if els.Some? then " else " + u.curlize(u.ensureStatementFinished(els.value)) else "";
    "if " + cond + " " + thenPart + elsePart
  }

  /** The clauses of a `for` as the C# assigns them, with the body's node and text. */
  datatype ForParts = ForParts(
    start: Option<string>, cond: Option<string>, step: Option<string>,
    body: Node, bodyText: string, sw: SwitchState)

  predicate IsCondition(m: Node, u: Utility)
  {
    m.kind == BinaryOperator && u.isBooleanOperator(m.binOp)
  }

  /** 836-879: one child is the body; with three, each of the first two is the condition if its operator is boolean. */
  function ForClauses(n: Node, env: Env, sw: SwitchState): (p: ForParts)
    requires WellFormed(n) && n.kind == ForStmt
    ensures p.body == n.children[|n.children| - 1]
    decreases n, 1, 0
  {
    var cs := n.children;
    var u := env.util;
    if |cs| == 1 then
      var e := Tr(cs[0], env, sw);
      ForParts(None, None, None, cs[0], e.text, e.sw)
    else if |cs| == 3 then
      var x := Tr(cs[0], env, sw);
      var y := Tr(cs[1], env, x.sw);
      var e := Tr(cs[2], env, y.sw);
      var c0, c1 := IsCondition(cs[0], u), IsCondition(cs[1], u);
      ForParts(
        if c0 then None else Some(x.text),
        if c1 then Some(y.text) else if c0 then Some(x.text) else None,
        if c1 then None else Some(y.text),
        cs[2], e.text, e.sw)
    else
      var s := Tr(cs[0], env, sw);
      var c := Tr(cs[1], env, s.sw);
      var i := Tr(cs[2], env, c.sw);
      var e := Tr(cs[3], env, i.sw);
      ForParts(Some(s.text), Some(c.text), Some(i.text), cs[3], e.text, e.sw)
  }

  /** `for` (834-902). */
  function TrFor(n: Node, env: Env, sw: SwitchState): Out
    requires WellFormed(n) && n.kind == ForStmt
    decreases n, 2, 0
  {
    var p := ForClauses(n, env, sw);
    var rc := ReplaceCommas(p.body, p.bodyText, env, p.sw);
    var body := env.util.ensureStatementFinished(rc.text);
    Out(ForText(GetExpression(p.start), GetExpression(p.cond), GetExpression(p.step), p.body.kind == CompoundStmt, body), rc.sw)
  }

  /** 885-901: init, then a `while` whose body starts with the step. */
  function ForText(start: string, cond: string, step: string, bodyIsBlock: bool, body: string): string
  {
    var startExpr := ReplaceChar(start, ',', ";");
    var itExpr := ReplaceChar(step, ',', ";");
    var k := IndexOfChar(body, '{');
    if bodyIsBlock && k != -1 then
      startExpr + ";\n" + "while (" + cond + ") " + body[..k + 1] + itExpr + ";\n" + body[k + 1..]
    else
      startExpr + ";\n" + "while (" + cond + ") {\n" + itExpr + ";\n" + body + "}"
  }

  /** `ReplaceCommas` (557-573): a comma operator becomes `;`, recursively; its operands are processed again. */
  function ReplaceCommas(m: Node, text: string, env: Env, sw: SwitchState): Out
    requires WellFormed(m)
    decreases m, 2, 0
  {
    if m.kind == BinaryOperator && m.binOp == Comma then
      var a := Tr(m.children[0], env, sw);
      var ra := ReplaceCommas(m.children[0], a.text, env, a.sw);
      var b := Tr(m.children[1], env, ra.sw);
      var rb := ReplaceCommas(m.children[1], b.text, env, b.sw);
      Out(ra.text + ";" + rb.text, rb.sw)
    else Out(text, sw)
  }

  /** `case` (904-919) from the switch state after its children. */
  function CaseText(st: SwitchState, value: string, body: string): string
  {
    (if st.count > 0 then "} else if " else "if ") + st.expression + " == " + value + " {" + body
  }

  /** `default` (921-934). */
  function DefaultText(st: SwitchState, body: string): string
  {
    (if st.count > 0 then "} else { " else "else { ") + body
  }

  /** `do ... while` (944-965). */
  function TrDo(n: Node, env: Env, sw: SwitchState): Out
    requires WellFormed(n) && n.kind == DoStmt
    decreases n, 2, 0
  {
    var u := env.util;
    var e := Tr(n.children[0], env, sw);
    var c := Tr(n.children[1], env, e.sw);
    var g := AppendGZ(n.children[1], c.text, env, c.sw);
    Out(DoText(n.children[0].kind == CompoundStmt, u.ensureStatementFinished(e.text), g.text), g.sw)
  }

  function DoText(bodyIsBlock: bool, body: string, cond: string): string
  {
    var breakExpr := "if !(" + cond + ") {break;}";
    var k := LastIndexOfChar(body, '}');
    if bodyIsBlock && k != -1 then "while(true) " + body[..k] + breakExpr + body[k..]
    else "while(true) {" + body + breakExpr + "}"
  }

  /** Variable declarations, local and global (1083-1210). */
  function TrVarDecl(n: Node, env: Env, sw: SwitchState): Out
    requires WellFormed(n) && n.kind == VarDecl
    decreases n, 2, 0
  {
    var cs := n.children;
    if |cs| > 0 then
      var rv := Tr(cs[|cs| - 1], env, sw);
      Out(VarDeclText(n, cs[|cs| - 1].kind, Some(rv.text), env.state, env.util), rv.sw)
    else Out(VarDeclText(n, TypeRef, None, env.state, env.util), sw)
  }

  /** The declaration text from the initializer's kind and text (the last child's). */
  function VarDeclText(n: Node, rvKind: Kind, rvText: Option<string>, state: State, u: Utility): string
  {
    var t := n.ty;
    var name := u.fixSpecialWords(n.spelling);
    var rv := SizedRvalue(t, rvKind, rvText, state);
    var decl := if t.isArray then name + ":[" + t.pointeeType + ";" + IntToString(t.arraySize) + "]" else name + ":" + t.rustType;
    var init :=
      if rv.Some? && rv.value != "" then
        if !t.isPointer && !t.isArray then " = " + rv.value
        else " = " + (if t.isArray then Uninitialized else if t.isPointer && rv.value == "0" then NullPtr else rv.value)
      else "";
    var e := decl + init;
    var e' := if state != Functions then e else if !t.isPointer || t.isArray then "let mut " + e else "let " + e;
    e' + ";"
  }

  /**
   * The initializer of an array whose size is given by a type, a literal or an expression
   * (1094-1128): an allocation outside function bodies, the uninitialized value inside them.
   */
  function SizedRvalue(t: TypeInfo, rvKind: Kind, rvText: Option<string>, state: State): (rv: Option<string>)
    ensures t.isArray && rvText.Some? && (rvKind == TypeRef || rvKind == IntegerLiteral || rvKind == BinaryOperator) ==>
      rv.Some? && rv.value != ""
    ensures !(t.isArray && rvText.Some? && (rvKind == TypeRef || rvKind == IntegerLiteral || rvKind == BinaryOperator)) ==>
      rv == rvText
  {
    if rvText.Some? && t.isArray && (rvKind == TypeRef || rvKind == IntegerLiteral || rvKind == BinaryOperator) then
      var sizeExp := if rvKind == BinaryOperator then rvText.value else IntToString(t.arraySize);
      Some(if state != Functions then "new " + t.pointeeType + "[" + sizeExp + "]" else Uninitialized)
    else rvText
  }

  /** Statements of a block or declaration list, each finished (1211-1242). */
  function Statements(xs: seq<string>, u: Utility): string
  {
    if xs == [] then "" else Statements(xs[..|xs| - 1], u) + u.ensureStatementFinished(xs[|xs| - 1])
  }

  function BlockText(xs: seq<string>, u: Utility): string
  {
    "{\n" + Statements(xs, u) + "}\n"
  }

  function IntegerText(n: Node): string
  {
    if |n.tokens| == 0 then n.literal else RemoveChar(RemoveChar(n.tokens[0], 'U'), 'u')
  }

  function FloatingText(n: Node): string
  {
    if |n.tokens| == 0 then n.literal else ReplaceChar(n.tokens[0], 'f', "f32")
  }

  function CharacterText(literal: string): string
  {
    "'" + (if literal == "" || literal == "\0" then "\\0" else literal) + "'"
  }

  function StringText(spelling: string): string
  {
    if StartsWith(spelling, "L") then spelling[1..] else spelling
  }

  /**
   * `AppendGZ` (464-534): the text of an operand used as a boolean, given the text
   * the operand has now. Children it inspects are processed again.
   */
  function AppendGZ(m: Node, text: string, env: Env, sw: SwitchState): Out
    requires WellFormed(m)
    decreases m, 2, 0
  {
    var u := env.util;
    if m.kind == BinaryOperator && m.binOp != Or && m.binOp != And then Out(text, sw)
    else if m.kind == ParenExpr then
      var inner := m.children[0];
      var child2 := Tr(inner, env, sw);
      if inner.kind == BinaryOperator && u.isBinaryOperator(inner.binOp) then
        var sub := Tr(inner, env, child2.sw);
        Out(u.parentize(sub.text) + "!= 0", sub.sw)
      else Out(text, child2.sw)
    else if m.kind == UnaryOperator then
      var operand := m.children[0];
      var child := Tr(operand, env, sw);
      if operand.ty.isPointer then
        Out(if m.unOp == LNot then child.text + "== " + NullPtr else text, child.sw)
      else if operand.kind == ParenExpr then
        assert WellFormed(operand);
        var inner := operand.children[0];
        var child2 := Tr(inner, env, child.sw);
        if inner.kind == BinaryOperator && u.isBinaryOperator(inner.binOp) then
          NotOrCompare(m, text, env, child2.sw)
        else Out(text, child2.sw)
      else NotOrCompare(m, text, env, child.sw)
    else Out(Compare(m.ty, text, u), sw)
  }

  /** 516-533 for a unary operator: `!e` compared with zero, anything else compared by its type. */
  function NotOrCompare(m: Node, text: string, env: Env, sw: SwitchState): Out
    requires WellFormed(m) && m.kind == UnaryOperator
    decreases m, 1, 0
  {
    if m.unOp == LNot then
      var sub := Tr(m.children[0], env, sw);
      Out(sub.text + "== 0", sub.sw)
    else Out(Compare(m.ty, text, env.util), sw)
  }

  /** 525-533: a numeric value compared with 0, a pointer with the null sentinel. */
  function Compare(t: TypeInfo, text: string, u: Utility): string
  {
    var t1 := if t.isNumeric then u.parentize(text) + " != 0" else text;
    if t.isPointer then u.parentize(t1) + " != " + NullPtr else t1
  }
}
