/**
 * `ConversionProcessor` as a class: the translation context, the registries and the
 * output buffers are fields, the translator and the passes are methods that update them
 * in place. Each method is proved against the functions of `Translate` and `Passes`.
 */
module Processor {
  import opened Wrappers
  import opened Strings
  import opened Syntax
  import opened Registry
  import opened Translate
  import opened Passes

  /** `CursorProcessResult`: the node and the text produced for it, which callers may rewrite. */
  class ProcessResult {
    const info: Node
    var expression: string

    constructor (info: Node, expression: string)
      ensures this.info == info && this.expression == expression
    {
      this.info := info;
      this.expression := expression;
    }
  }

  const ControlKinds: set<Kind> := {ReturnStmt, IfStmt, ForStmt, CaseStmt, DefaultStmt, SwitchStmt, DoStmt, WhileStmt}
  const JumpKinds: set<Kind> := {LabelRef, GotoStmt, LabelStmt, BreakStmt, ContinueStmt}
  const BlockKinds: set<Kind> := {VarDecl, DeclStmt, CompoundStmt}
  const SwitchKinds: set<Kind> := {CaseStmt, DefaultStmt, SwitchStmt}
  const ArithmeticKinds: set<Kind> := {UnaryExpr, CompoundAssignOperator, BinaryOperator, UnaryOperator, ConditionalOperator}
  const OperatorKinds: set<Kind> :=
    {EnumConstantDecl, UnaryExpr, DeclRefExpr, CompoundAssignOperator, BinaryOperator, UnaryOperator,
     CallExpr, ConditionalOperator, MemberRefExpr, ArraySubscriptExpr}

  class ConversionProcessor {
    const parameters: ConversionParameters
    const util: Utility
    /** The clock reading the preamble shows. */
    const timestamp: string
    /** The indentation `IndentedWrite` puts in front at a given level. */
    const indent: int -> string

    var state: State
    var returnType: TypeInfo
    var functionName: string
    var visitedStructs: set<string>
    var structInfos: map<string, StructInfo>
    var functionInfos: FunctionTable
    var items: seq<string>
    var currentSource: string
    var writers: map<string, string>
    var currentStructConfig: BaseConfig
    var switchCount: int
    var switchExpression: string
    var indentLevel: int
    /** An exception was raised: nothing is processed after it. */
    var failed: bool

    constructor (parameters: ConversionParameters, util: Utility, timestamp: string, indent: int -> string)
      ensures this.parameters == parameters && this.util == util
      ensures this.timestamp == timestamp && this.indent == indent
      ensures state == Structs && returnType == NoTypeInfo && functionName == ""
      ensures visitedStructs == {} && structInfos == map[] && functionInfos == EmptyTable()
      ensures items == [] && currentSource == "" && writers == map[] && currentStructConfig == NoConfig
      ensures switchCount == 0 && switchExpression == "" && indentLevel == 0 && !failed
    {
      this.parameters := parameters;
      this.util := util;
      this.timestamp := timestamp;
      this.indent := indent;
      state := Structs;
      returnType := NoTypeInfo;
      functionName := "";
      visitedStructs := {};
      structInfos := map[];
      functionInfos := EmptyTable();
      items := [];
      currentSource := "";
      writers := map[];
      currentStructConfig := NoConfig;
      switchCount := 0;
      switchExpression := "";
      indentLevel := 0;
      failed := false;
    }

    /** What the translator reads. */
    function Context(): Env
      reads this`returnType, this`state, this`functionInfos
    {
      Env(returnType, state, functionInfos, util)
    }

    /** What the switch rules read and write. */
    function Switch(): SwitchState
      reads this`switchCount, this`switchExpression
    {
      SwitchState(switchCount, switchExpression)
    }

    /** `ws` after appending `s` to the buffer for `source`. */
    function Appended(ws: map<string, string>, source: string, s: string): map<string, string>
    {
      ws[source := Buffer(ws, source, parameters, timestamp) + s]
    }

    lemma AppendedTwice(ws: map<string, string>, source: string, s: string, t: string)
      ensures Appended(Appended(ws, source, s), source, t) == Appended(ws, source, s + t)
    {
      var b := Buffer(ws, source, parameters, timestamp);
      assert b + s + t == b + (s + t);
    }

    // -------------------------------------------------------------------------
    // Output buffers (49-76)
    // -------------------------------------------------------------------------

    /** `Writer`: no buffer without a current source; a new buffer gets the preamble once. */
    method CurrentWriter() returns (w: Option<string>)
      modifies this`writers
      ensures currentSource == "" ==> w == None && writers == old(writers)
      ensures currentSource != "" ==>
        w == Some(currentSource)
        && writers == old(writers)[currentSource := Buffer(old(writers), currentSource, parameters, timestamp)]
    {
      if currentSource == "" {
        return None;
      }
      if currentSource !in writers {
        var sw := "";
        if parameters.addGeneratedByUr {
          sw := sw + "// Generated by Ur at " + timestamp + "\n";
          sw := sw + "\n";
          sw := sw + "use std;\n";
          sw := sw + "use c_runtime;\n";
          sw := sw + "\n";
          assert sw == Preamble(timestamp);
        }
        writers := writers[currentSource := sw];
      }
      return Some(currentSource);
    }

    /** Writing without a current source dereferences a null writer. */
    method Write(s: string)
      modifies this`writers, this`failed
      ensures currentSource == "" ==> failed && writers == old(writers)
      ensures currentSource != "" ==> failed == old(failed) && writers == Appended(old(writers), currentSource, s)
    {
      var w := CurrentWriter();
      if w.None? {
        failed := true;
      } else {
        writers := writers[w.value := writers[w.value] + s];
      }
    }

    method IndentedWrite(s: string)
      modifies this`writers, this`failed
      ensures currentSource == "" ==> failed && writers == old(writers)
      ensures currentSource != "" ==>
        failed == old(failed) && writers == Appended(old(writers), currentSource, indent(indentLevel) + s)
    {
      Write(indent(indentLevel) + s);
    }

    method IndentedWriteLine(s: string)
      modifies this`writers, this`failed
      ensures currentSource == "" ==> failed && writers == old(writers)
      ensures currentSource != "" ==>
        failed == old(failed) && writers == Appended(old(writers), currentSource, indent(indentLevel) + s + "\n")
    {
      Write(indent(indentLevel) + s + "\n");
    }

    method WriteLine()
      modifies this`writers, this`failed
      ensures currentSource == "" ==> failed && writers == old(writers)
      ensures currentSource != "" ==> failed == old(failed) && writers == Appended(old(writers), currentSource, "\n")
    {
      Write("\n");
    }

    // -------------------------------------------------------------------------
    // The translator (464-1363)
    // -------------------------------------------------------------------------

    /** `Process`: a new result for `n` whose text is the translation of `n`. */
    method Process(n: Node) returns (r: ProcessResult)
      requires WellFormed(n)
      modifies this`switchCount, this`switchExpression
      ensures fresh(r) && r.info == n
      ensures r.expression == Tr(n, Context(), old(Switch())).text
      ensures Switch() == Tr(n, Context(), old(Switch())).sw
      decreases n, 4, 0
    {
      var e := InternalProcess(n);
      r := new ProcessResult(n, e);
    }

    /** `InternalProcess`: one rule per node kind, grouped as the translator groups them. */
    method InternalProcess(n: Node) returns (e: string)
      requires WellFormed(n)
      modifies this`switchCount, this`switchExpression
      ensures e == Tr(n, Context(), old(Switch())).text
      ensures Switch() == Tr(n, Context(), old(Switch())).sw
      decreases n, 3, 0
    {
      if n.kind in ControlKinds {
        e := ProcessControl(n);
      } else if n.kind in JumpKinds {
        e := ProcessJumpKind(n);
      } else if n.kind in BlockKinds {
        e := ProcessBlockKind(n);
      } else if n.kind in OperatorKinds {
        e := ProcessOperatorKind(n);
      } else {
        e := ProcessOtherKind(n);
      }
    }

    method ProcessControl(n: Node) returns (e: string)
      requires WellFormed(n) && n.kind in ControlKinds
      modifies this`switchCount, this`switchExpression
      ensures e == Tr(n, Context(), old(Switch())).text
      ensures Switch() == Tr(n, Context(), old(Switch())).sw
      decreases n, 2, 2
    {
      if n.kind in SwitchKinds {
        e := ProcessSwitchKind(n);
      } else {
        e := ProcessBranchKind(n);
      }
    }

    /** `case`, `default` and `switch`. */
    method ProcessSwitchKind(n: Node) returns (e: string)
      requires WellFormed(n) && n.kind in SwitchKinds
      modifies this`switchCount, this`switchExpression
      ensures e == Tr(n, Context(), old(Switch())).text
      ensures Switch() == Tr(n, Context(), old(Switch())).sw
      decreases n, 2, 1
    {
      if n.kind == CaseStmt {
        e := ProcessCase(n);
      } else if n.kind == DefaultStmt {
        e := ProcessDefault(n);
      } else {
        e := ProcessSwitch(n);
      }
    }

    /** `return`, `if` and the three loops. */
    method ProcessBranchKind(n: Node) returns (e: string)
      requires WellFormed(n) && n.kind in ControlKinds - SwitchKinds
      modifies this`switchCount, this`switchExpression
      ensures e == Tr(n, Context(), old(Switch())).text
      ensures Switch() == Tr(n, Context(), old(Switch())).sw
      decreases n, 2, 1
    {
      if n.kind == ReturnStmt {
        e := ProcessReturn(n);
      } else if n.kind == IfStmt {
        e := ProcessIf(n);
      } else if n.kind == ForStmt {
        e := ProcessFor(n);
      } else if n.kind == DoStmt {
        e := ProcessDo(n);
      } else {
        e := ProcessWhile(n);
      }
    }

    method ProcessJumpKind(n: Node) returns (e: string)
      requires WellFormed(n) && n.kind in JumpKinds
      modifies this`switchCount, this`switchExpression
      ensures e == Tr(n, Context(), old(Switch())).text
      ensures Switch() == Tr(n, Context(), old(Switch())).sw
      decreases n, 2, 2
    {
      if n.kind == LabelRef {
        e := n.spelling;
      } else if n.kind == GotoStmt {
        e := ProcessGoto(n);
      } else if n.kind == LabelStmt {
        e := ProcessLabel(n);
      } else if n.kind == BreakStmt {
        e := ",";
      } else {
        e := "continue";
      }
    }

    method ProcessBlockKind(n: Node) returns (e: string)
      requires WellFormed(n) && n.kind in BlockKinds
      modifies this`switchCount, this`switchExpression
      ensures e == Tr(n, Context(), old(Switch())).text
      ensures Switch() == Tr(n, Context(), old(Switch())).sw
      decreases n, 2, 2
    {
      if n.kind == VarDecl {
        e := ProcessVarDecl(n);
      } else if n.kind == DeclStmt {
        e := ProcessStatements(n);
      } else {
        e := ProcessCompound(n);
      }
    }

    method ProcessOperatorKind(n: Node) returns (e: string)
      requires WellFormed(n) && n.kind in OperatorKinds
      modifies this`switchCount, this`switchExpression
      ensures e == Tr(n, Context(), old(Switch())).text
      ensures Switch() == Tr(n, Context(), old(Switch())).sw
      decreases n, 2, 2
    {
      if n.kind in ArithmeticKinds {
        e := ProcessArithmeticKind(n);
      } else {
        e := ProcessReferenceKind(n);
      }
    }

    /** The unary, binary and conditional operators. */
    method ProcessArithmeticKind(n: Node) returns (e: string)
      requires WellFormed(n) && n.kind in ArithmeticKinds
      modifies this`switchCount, this`switchExpression
      ensures e == Tr(n, Context(), old(Switch())).text
      ensures Switch() == Tr(n, Context(), old(Switch())).sw
      decreases n, 2, 1
    {
      if n.kind == UnaryExpr {
        e := ProcessUnaryExpr(n);
      } else if n.kind == CompoundAssignOperator {
        e := ProcessBinary(n);
      } else if n.kind == BinaryOperator {
        e := ProcessBinary(n);
      } else if n.kind == UnaryOperator {
        e := ProcessUnaryOperator(n);
      } else {
        e := ProcessConditional(n);
      }
    }

    /** Enumerators, names, calls, members and subscripts. */
    method ProcessReferenceKind(n: Node) returns (e: string)
      requires WellFormed(n) && n.kind in OperatorKinds - ArithmeticKinds
      modifies this`switchCount, this`switchExpression
      ensures e == Tr(n, Context(), old(Switch())).text
      ensures Switch() == Tr(n, Context(), old(Switch())).sw
      decreases n, 2, 1
    {
      if n.kind == EnumConstantDecl {
        e := ProcessEnumConstant(n);
      } else if n.kind == DeclRefExpr {
        e := DeclRefText(n, Context());
      } else if n.kind == CallExpr {
        e := ProcessCall(n);
      } else if n.kind == MemberRefExpr {
        e := ProcessMember(n);
      } else {
        e := ProcessSubscript(n);
      }
    }

    /** Literals, initializer lists and the pass-through rules (1274-1349). */
    method ProcessOtherKind(n: Node) returns (e: string)
      requires WellFormed(n) && n.kind !in ControlKinds && n.kind !in JumpKinds
      requires n.kind !in BlockKinds && n.kind !in OperatorKinds
      modifies this`switchCount, this`switchExpression
      ensures e == Tr(n, Context(), old(Switch())).text
      ensures Switch() == Tr(n, Context(), old(Switch())).sw
      decreases n, 2, 2
    {
      var cs := n.children;
      if n.kind == IntegerLiteral {
        e := IntegerText(n);
      } else if n.kind == FloatingLiteral {
        e := FloatingText(n);
      } else if n.kind == CharacterLiteral {
        e := CharacterText(n.literal);
      } else if n.kind == StringLiteral {
        e := StringText(n.spelling);
      } else if n.kind == InitListExpr {
        e := ProcessInitList(n);
      } else if n.kind == ParenExpr {
        if |cs| > 0 {
          var expr := Process(cs[0]);
          e := expr.expression;
        } else {
          e := "";
        }
      } else if n.kind == CStyleCastExpr {
        var child := Process(cs[|cs| - 1]);
        e := child.expression;
      } else if n.kind == UnexposedExpr {
        e := ProcessUnexposed(n);
      } else if |cs| == 0 {
        e := "";
      } else {
        var expr := Process(cs[|cs| - 1]);
        e := expr.expression;
      }
    }

    method ProcessEnumConstant(n: Node) returns (e: string)
      requires WellFormed(n) && n.kind == EnumConstantDecl
      modifies this`switchCount, this`switchExpression
      ensures e == TrEnumConstant(n, Context(), old(Switch())).text
      ensures Switch() == TrEnumConstant(n, Context(), old(Switch())).sw
      decreases n, 2, 0
    {
      var expr := Process(n.children[0]);
      e := n.spelling + " = " + expr.expression;
    }

    method ProcessGoto(n: Node) returns (e: string)
      requires WellFormed(n) && n.kind == GotoStmt
      modifies this`switchCount, this`switchExpression
      ensures e == TrGoto(n, Context(), old(Switch())).text
      ensures Switch() == TrGoto(n, Context(), old(Switch())).sw
      decreases n, 2, 0
    {
      var target := Process(n.children[0]);
      e := "goto " + target.expression;
    }

    method ProcessMember(n: Node) returns (e: string)
      requires WellFormed(n) && n.kind == MemberRefExpr
      modifies this`switchCount, this`switchExpression
      ensures e == TrMember(n, Context(), old(Switch())).text
      ensures Switch() == TrMember(n, Context(), old(Switch())).sw
      decreases n, 2, 0
    {
      var a := Process(n.children[0]);
      e := a.expression + "." + util.fixSpecialWords(n.spelling);
    }

    method ProcessSubscript(n: Node) returns (e: string)
      requires WellFormed(n) && n.kind == ArraySubscriptExpr
      modifies this`switchCount, this`switchExpression
      ensures e == TrSubscript(n, Context(), old(Switch())).text
      ensures Switch() == TrSubscript(n, Context(), old(Switch())).sw
      decreases n, 2, 0
    {
      var a := Process(n.children[0]);
      var i := Process(n.children[1]);
      e := a.expression + "[" + i.expression + "]";
    }

    method ProcessUnaryExpr(n: Node) returns (e: string)
      requires WellFormed(n) && n.kind == UnaryExpr
      modifies this`switchCount, this`switchExpression
      ensures e == TrUnaryExpr(n, Context(), old(Switch())).text
      ensures Switch() == TrUnaryExpr(n, Context(), old(Switch())).sw
      decreases n, 2, 0
    {
      if |n.children| > 0 {
        var expr := Process(n.children[0]);
        e := UnaryExprText(n, Some(expr.expression));
      } else {
        e := UnaryExprText(n, None);
      }
    }

    method ProcessBinary(n: Node) returns (e: string)
      requires WellFormed(n) && (n.kind == BinaryOperator || n.kind == CompoundAssignOperator)
      modifies this`switchCount, this`switchExpression
      ensures e == TrBinary(n, Context(), old(Switch())).text
      ensures Switch() == TrBinary(n, Context(), old(Switch())).sw
      decreases n, 2, 0
    {
      var a := Process(n.children[0]);
      var b := Process(n.children[1]);
      var op := n.binOp;
      if util.isLogicalBinaryOperator(op) {
        AppendGZ(a);
        AppendGZ(b);
      }
      if util.isAssign(op) && op != ShlAssign && op != ShrAssign && !n.ty.isPointer
         && b.info.kind == ParenExpr && |b.info.children| > 0 {
        var bb := Process(b.info.children[0]);
        if bb.info.kind == BinaryOperator && util.isLogicalBooleanOperator(bb.info.binOp) {
          b := bb;
        }
      }
      e := BinaryText(op, n.opString, a.info.ty.isPointer, a.expression, b.expression, util);
    }

    method ProcessUnaryOperator(n: Node) returns (e: string)
      requires WellFormed(n) && n.kind == UnaryOperator
      modifies this`switchCount, this`switchExpression
      ensures e == TrUnaryOperator(n, Context(), old(Switch())).text
      ensures Switch() == TrUnaryOperator(n, Context(), old(Switch())).sw
      decreases n, 2, 0
    {
      var a := Process(n.children[0]);
      e := UnaryText(n.unOp, n.opString, a.expression, util);
    }

    method ProcessCall(n: Node) returns (e: string)
      requires WellFormed(n) && n.kind == CallExpr
      modifies this`switchCount, this`switchExpression
      ensures e == TrCall(n, Context(), old(Switch())).text
      ensures Switch() == TrCall(n, Context(), old(Switch())).sw
      decreases n, 2, 0
    {
      var functionExpr := Process(n.children[0]);
      var name := util.deparentize(functionExpr.expression);
      if name in functionInfos.infos {
        name := functionInfos.infos[name].config.name;
      } else {
        var found := functionInfos.FindByConfigName(name);
        if found.Some? {
          name := found.value.config.name;
        }
      }
      var args := ProcessArguments(n, Context(), Switch());
      e := CallText(name, args);
    }

    /** The argument loop of a call (757-773): every child after the first, in order. */
    method ProcessArguments(n: Node, ghost env: Env, ghost s0: SwitchState) returns (args: seq<string>)
      requires WellFormed(n) && |n.children| >= 1 && env == Context() && s0 == Switch()
      modifies this`switchCount, this`switchExpression
      ensures args == Texts(n, 1, |n.children|, env, s0).texts
      ensures Switch() == Texts(n, 1, |n.children|, env, s0).sw
      decreases n, 1, 0
    {
      var size := |n.children|;
      args := [];
      var i := 1;
      while i < size
        invariant 1 <= i <= size
        invariant Context() == env
        invariant args == Texts(n, 1, i, env, s0).texts
        invariant Switch() == Texts(n, 1, i, env, s0).sw
      {
        var argExpr := Process(n.children[i]);
        args := args + [argExpr.expression];
        i := i + 1;
      }
    }

    method ProcessReturn(n: Node) returns (e: string)
      requires WellFormed(n) && n.kind == ReturnStmt
      modifies this`switchCount, this`switchExpression
      ensures e == TrReturn(n, Context(), old(Switch())).text
      ensures Switch() == TrReturn(n, Context(), old(Switch())).sw
      decreases n, 2, 0
    {
      var ret := "";
      if |n.children| > 0 {
        var child := Process(n.children[0]);
        ret := child.expression;
      }
      e := ReturnText(returnType, ret);
    }

    method ProcessIf(n: Node) returns (e: string)
      requires WellFormed(n) && n.kind == IfStmt
      modifies this`switchCount, this`switchExpression
      ensures e == TrIf(n, Context(), old(Switch())).text
      ensures Switch() == TrIf(n, Context(), old(Switch())).sw
      decreases n, 2, 0
    {
      var conditionExpr := Process(n.children[0]);
      AppendGZ(conditionExpr);
      var executionExpr := Process(n.children[1]);
      if |n.children| > 2 {
        var elseExpr := Process(n.children[2]);
        e := IfText(conditionExpr.expression, executionExpr.expression, Some(elseExpr.expression), util);
      } else {
        e := IfText(conditionExpr.expression, executionExpr.expression, None, util);
      }
    }

    /** The text of a clause that may be missing (`GetExpression`). */
    function Clause(r: ProcessResult?): Option<string>
      reads r
    {
      if r == null then None else Some(r.expression)
    }

    method ProcessFor(n: Node) returns (e: string)
      requires WellFormed(n) && n.kind == ForStmt
      modifies this`switchCount, this`switchExpression
      ensures e == TrFor(n, Context(), old(Switch())).text
      ensures Switch() == TrFor(n, Context(), old(Switch())).sw
      decreases n, 2, 0
    {
      var start, condition, it, execution := ProcessForClauses(n);
      var executionExpr := ReplaceCommas(execution);
      executionExpr := util.ensureStatementFinished(executionExpr);
      e := ForText(GetExpression(start), GetExpression(condition), GetExpression(it),
                   execution.info.kind == CompoundStmt, executionExpr);
    }

    /** The clauses of a `for` (836-879): with three children, a boolean operator is the condition. */
    method ProcessForClauses(n: Node) returns (startClause: Option<string>, condClause: Option<string>,
                                               stepClause: Option<string>, execution: ProcessResult)
      requires WellFormed(n) && n.kind == ForStmt
      modifies this`switchCount, this`switchExpression
      ensures ForClauses(n, Context(), old(Switch()))
        == ForParts(startClause, condClause, stepClause, execution.info, execution.expression, Switch())
      decreases n, 1, 1
    {
      var size := |n.children|;
      if size == 1 {
        execution := Process(n.children[0]);
        startClause, condClause, stepClause := None, None, None;
      } else if size == 3 {
        startClause, condClause, stepClause, execution := ProcessForThree(n);
      } else {
        var start := Process(n.children[0]);
        var condition := Process(n.children[1]);
        var it := Process(n.children[2]);
        execution := Process(n.children[3]);
        startClause, condClause, stepClause := Some(start.expression), Some(condition.expression), Some(it.expression);
      }
    }

    /** A `for` with three children (848-872): whichever of the first two is a boolean operator is the condition. */
    method ProcessForThree(n: Node) returns (startClause: Option<string>, condClause: Option<string>,
                                             stepClause: Option<string>, execution: ProcessResult)
      requires WellFormed(n) && n.kind == ForStmt && |n.children| == 3
      modifies this`switchCount, this`switchExpression
      ensures ForClauses(n, Context(), old(Switch()))
        == ForParts(startClause, condClause, stepClause, execution.info, execution.expression, Switch())
      decreases n, 1, 0
    {
      var start: ProcessResult? := null;
      var condition: ProcessResult? := null;
      var it: ProcessResult? := null;
      var expr := Process(n.children[0]);
      if IsCondition(expr.info, util) {
        condition := expr;
      } else {
        start := expr;
      }
      expr := Process(n.children[1]);
      if IsCondition(expr.info, util) {
        condition := expr;
      } else {
        it := expr;
      }
      execution := Process(n.children[2]);
      startClause, condClause, stepClause := Clause(start), Clause(condition), Clause(it);
    }

    /** `ReplaceCommas` (557-573): the operands of a comma operator are processed again. */
    method ReplaceCommas(info: ProcessResult) returns (e: string)
      requires WellFormed(info.info)
      modifies this`switchCount, this`switchExpression
      ensures e == Translate.ReplaceCommas(info.info, old(info.expression), Context(), old(Switch())).text
      ensures Switch() == Translate.ReplaceCommas(info.info, old(info.expression), Context(), old(Switch())).sw
      decreases info.info, 2, 0
    {
      e := info.expression;
      var m := info.info;
      if m.kind == BinaryOperator && m.binOp == Comma {
        var a0 := Process(m.children[0]);
        var a := ReplaceCommas(a0);
        var b0 := Process(m.children[1]);
        var b := ReplaceCommas(b0);
        e := a + ";" + b;
      }
    }

    method ProcessCase(n: Node) returns (e: string)
      requires WellFormed(n) && n.kind == CaseStmt
      modifies this`switchCount, this`switchExpression
      ensures e == TrCase(n, Context(), old(Switch())).text
      ensures Switch() == TrCase(n, Context(), old(Switch())).sw
      decreases n, 2, 0
    {
      var expr := Process(n.children[0]);
      var execution := Process(n.children[1]);
      e := CaseLine(expr.expression, execution.expression);
    }

    /** The opening of a `case` arm (909-918): `} else ` before every arm but the first. */
    method CaseLine(value: string, body: string) returns (e: string)
      modifies this`switchCount
      ensures e == CaseText(old(Switch()), value, body)
      ensures Switch() == SwitchState(old(switchCount) + 1, switchExpression)
    {
      var s2 := "if ";
      if switchCount > 0 {
        s2 := "} else " + s2;
      }
      switchCount := switchCount + 1;
      e := s2 + switchExpression + " == " + value + " {" + body;
    }

    method ProcessDefault(n: Node) returns (e: string)
      requires WellFormed(n) && n.kind == DefaultStmt
      modifies this`switchCount, this`switchExpression
      ensures e == TrDefault(n, Context(), old(Switch())).text
      ensures Switch() == TrDefault(n, Context(), old(Switch())).sw
      decreases n, 2, 0
    {
      var execution := Process(n.children[0]);
      e := DefaultLine(execution.expression);
    }

    /** The opening of a `default` arm (924-933): `} ` before it unless it is the first arm. */
    method DefaultLine(body: string) returns (e: string)
      modifies this`switchCount
      ensures e == DefaultText(old(Switch()), body)
      ensures Switch() == SwitchState(old(switchCount) + 1, switchExpression)
    {
      var s2 := "else { ";
      if switchCount > 0 {
        s2 := "} " + s2;
      }
      switchCount := switchCount + 1;
      e := s2 + body;
    }

    method ProcessSwitch(n: Node) returns (e: string)
      requires WellFormed(n) && n.kind == SwitchStmt
      modifies this`switchCount, this`switchExpression
      ensures e == TrSwitch(n, Context(), old(Switch())).text
      ensures Switch() == TrSwitch(n, Context(), old(Switch())).sw
      decreases n, 2, 0
    {
      switchCount := 0;
      var s := Process(n.children[0]);
      switchExpression := s.expression;
      var execution := Process(n.children[1]);
      e := execution.expression + "}";
    }

    method ProcessDo(n: Node) returns (e: string)
      requires WellFormed(n) && n.kind == DoStmt
      modifies this`switchCount, this`switchExpression
      ensures e == TrDo(n, Context(), old(Switch())).text
      ensures Switch() == TrDo(n, Context(), old(Switch())).sw
      decreases n, 2, 0
    {
      var execution := Process(n.children[0]);
      var expr := Process(n.children[1]);
      AppendGZ(expr);
      e := DoText(execution.info.kind == CompoundStmt, util.ensureStatementFinished(execution.expression), expr.expression);
    }

    method ProcessWhile(n: Node) returns (e: string)
      requires WellFormed(n) && n.kind == WhileStmt
      modifies this`switchCount, this`switchExpression
      ensures e == TrWhile(n, Context(), old(Switch())).text
      ensures Switch() == TrWhile(n, Context(), old(Switch())).sw
      decreases n, 2, 0
    {
      var expr := Process(n.children[0]);
      AppendGZ(expr);
      var execution := Process(n.children[1]);
      e := "while (" + expr.expression + ") " + util.curlize(util.ensureStatementFinished(execution.expression));
    }

    method ProcessLabel(n: Node) returns (e: string)
      requires WellFormed(n) && n.kind == LabelStmt
      modifies this`switchCount, this`switchExpression
      ensures e == TrList(n, Context(), old(Switch())).text
      ensures Switch() == TrList(n, Context(), old(Switch())).sw
      decreases n, 2, 0
    {
      ghost var env := Context();
      ghost var s0 := Switch();
      ghost var head := n.spelling + ":;\n";
      var sb := n.spelling + ":;\n";
      LabelStart(n, env, s0, head);
      var i := 0;
      while i < |n.children|
        invariant 0 <= i <= |n.children|
        invariant Context() == env
        invariant sb == head + Join("", Texts(n, 0, i, env, s0).texts)
        invariant Switch() == Texts(n, 0, i, env, s0).sw
      {
        var child := Process(n.children[i]);
        LabelStep(n, i, env, s0, head, sb, child.expression);
        sb := sb + child.expression;
        i := i + 1;
      }
      LabelEnd(n, env, s0);
      e := sb;
    }

    method ProcessStatements(n: Node) returns (e: string)
      requires WellFormed(n) && n.kind == DeclStmt
      modifies this`switchCount, this`switchExpression
      ensures e == TrList(n, Context(), old(Switch())).text
      ensures Switch() == TrList(n, Context(), old(Switch())).sw
      decreases n, 2, 0
    {
      ghost var env := Context();
      ghost var s0 := Switch();
      ghost var head := "";
      var sb := "";
      assert sb == head + Statements([], util);
      var i := 0;
      while i < |n.children|
        invariant 0 <= i <= |n.children|
        invariant Context() == env
        invariant sb == head + Statements(Texts(n, 0, i, env, s0).texts, util)
        invariant Switch() == Texts(n, 0, i, env, s0).sw
      {
        var exp := Process(n.children[i]);
        StatementsStep(n, i, env, s0, head, sb, exp.expression, util);
        exp.expression := util.ensureStatementFinished(exp.expression);
        sb := sb + exp.expression;
        i := i + 1;
      }
      e := sb;
    }

    method ProcessCompound(n: Node) returns (e: string)
      requires WellFormed(n) && n.kind == CompoundStmt
      modifies this`switchCount, this`switchExpression
      ensures e == TrList(n, Context(), old(Switch())).text
      ensures Switch() == TrList(n, Context(), old(Switch())).sw
      decreases n, 2, 0
    {
      ghost var env := Context();
      ghost var s0 := Switch();
      ghost var head := "{\n";
      var sb := "{\n";
      assert sb == head + Statements([], util);
      var i := 0;
      while i < |n.children|
        invariant 0 <= i <= |n.children|
        invariant Context() == env
        invariant sb == head + Statements(Texts(n, 0, i, env, s0).texts, util)
        invariant Switch() == Texts(n, 0, i, env, s0).sw
      {
        var exp := Process(n.children[i]);
        StatementsStep(n, i, env, s0, head, sb, exp.expression, util);
        exp.expression := util.ensureStatementFinished(exp.expression);
        sb := sb + exp.expression;
        i := i + 1;
      }
      BlockOfStatements(n, env, s0, sb);
      sb := sb + "}\n";
      e := sb;
    }

    method ProcessInitList(n: Node) returns (e: string)
      requires WellFormed(n) && n.kind == InitListExpr
      modifies this`switchCount, this`switchExpression
      ensures e == TrList(n, Context(), old(Switch())).text
      ensures Switch() == TrList(n, Context(), old(Switch())).sw
      decreases n, 2, 0
    {
      ghost var env := Context();
      ghost var s0 := Switch();
      var size := |n.children|;
      var sb := "[ ";
      var i := 0;
      while i < size
        invariant 0 <= i <= size && Context() == env
        invariant sb == "[ " + Join(", ", Texts(n, 0, i, env, s0).texts) + (if 0 < i < size then ", " else "")
        invariant Switch() == Texts(n, 0, i, env, s0).sw
      {
        var exp := Process(n.children[i]);
        InitListStep(n, i, env, s0, sb, exp.expression);
        sb := sb + exp.expression;
        if i < size - 1 {
          sb := sb + ", ";
        }
        i := i + 1;
      }
      sb := sb + " ]";
      e := sb;
    }

    method ProcessConditional(n: Node) returns (e: string)
      requires WellFormed(n) && n.kind == ConditionalOperator
      modifies this`switchCount, this`switchExpression
      ensures e == TrConditional(n, Context(), old(Switch())).text
      ensures Switch() == TrConditional(n, Context(), old(Switch())).sw
      decreases n, 2, 0
    {
      var condition := Process(n.children[0]);
      var a := Process(n.children[1]);
      var b := Process(n.children[2]);
      e := "if " + condition.expression + "{" + a.expression + "} else {" + b.expression + "}";
    }

    method ProcessVarDecl(n: Node) returns (e: string)
      requires WellFormed(n) && n.kind == VarDecl
      modifies this`switchCount, this`switchExpression
      ensures e == TrVarDecl(n, Context(), old(Switch())).text
      ensures Switch() == TrVarDecl(n, Context(), old(Switch())).sw
      decreases n, 2, 0
    {
      var size := |n.children|;
      if size > 0 {
        var rvalue := Process(n.children[size - 1]);
        e := VarDeclText(n, rvalue.info.kind, Some(rvalue.expression), state, util);
      } else {
        e := VarDeclText(n, TypeRef, None, state, util);
      }
    }

    method ProcessUnexposed(n: Node) returns (e: string)
      requires WellFormed(n) && n.kind == UnexposedExpr
      modifies this`switchCount, this`switchExpression
      ensures e == TrUnexposed(n, Context(), old(Switch())).text
      ensures Switch() == TrUnexposed(n, Context(), old(Switch())).sw
      decreases n, 2, 0
    {
      var size := |n.children|;
      if size == 0 {
        return "";
      }
      var expr := Process(n.children[size - 1]);
      if n.ty.isPointer && util.deparentize(expr.expression) == "0" {
        expr.expression := NullPtr;
      }
      e := expr.expression;
    }

    /** `AppendGZ` (464-534): rewrites the result's text so that it reads as a boolean. */
    method AppendGZ(crp: ProcessResult)
      requires WellFormed(crp.info)
      modifies crp`expression, this`switchCount, this`switchExpression
      ensures crp.expression == Translate.AppendGZ(crp.info, old(crp.expression), Context(), old(Switch())).text
      ensures Switch() == Translate.AppendGZ(crp.info, old(crp.expression), Context(), old(Switch())).sw
      decreases crp.info, 2, 0
    {
      var info := crp.info;
      if info.kind == BinaryOperator {
        if info.binOp != Or && info.binOp != And {
          return;
        }
      }
      if info.kind == ParenExpr {
        AppendGZParen(crp);
        return;
      }
      if info.kind == UnaryOperator {
        AppendGZUnary(crp);
        return;
      }
      CompareWithZero(crp);
    }

    /** 477-487: a parenthesised binary operation is compared with zero as a whole. */
    method AppendGZParen(crp: ProcessResult)
      requires WellFormed(crp.info) && crp.info.kind == ParenExpr
      modifies crp`expression, this`switchCount, this`switchExpression
      ensures crp.expression == Translate.AppendGZ(crp.info, old(crp.expression), Context(), old(Switch())).text
      ensures Switch() == Translate.AppendGZ(crp.info, old(crp.expression), Context(), old(Switch())).sw
      decreases crp.info, 1, 0
    {
      var info := crp.info;
      var child2 := Process(info.children[0]);
      if child2.info.kind == BinaryOperator && util.isBinaryOperator(child2.info.binOp) {
        var sub := Process(info.children[0]);
        crp.expression := util.parentize(sub.expression) + "!= 0";
      }
    }

    /** 489-523: a negated pointer is compared with the null sentinel, `!e` with zero. */
    method AppendGZUnary(crp: ProcessResult)
      requires WellFormed(crp.info) && crp.info.kind == UnaryOperator
      modifies crp`expression, this`switchCount, this`switchExpression
      ensures crp.expression == Translate.AppendGZ(crp.info, old(crp.expression), Context(), old(Switch())).text
      ensures Switch() == Translate.AppendGZ(crp.info, old(crp.expression), Context(), old(Switch())).sw
      decreases crp.info, 1, 0
    {
      var info := crp.info;
      var child := Process(info.children[0]);
      if child.info.ty.isPointer {
        if info.unOp == LNot {
          crp.expression := child.expression + "== " + NullPtr;
        }
        return;
      }
      if child.info.kind == ParenExpr {
        assert WellFormed(child.info);
        var child2 := Process(child.info.children[0]);
        if !(child2.info.kind == BinaryOperator && util.isBinaryOperator(child2.info.binOp)) {
          return;
        }
      }
      if info.unOp == LNot {
        var sub := Process(info.children[0]);
        crp.expression := sub.expression + "== 0";
        return;
      }
      CompareWithZero(crp);
    }

    /** 525-533: a numeric value is compared with 0, then a pointer with the null sentinel. */
    method CompareWithZero(crp: ProcessResult)
      modifies crp`expression
      ensures crp.expression == Compare(crp.info.ty, old(crp.expression), util)
    {
      var info := crp.info;
      if info.ty.isNumeric {
        crp.expression := util.parentize(crp.expression) + " != 0";
      }
      if info.ty.isPointer {
        crp.expression := util.parentize(crp.expression) + " != " + NullPtr;
      }
    }

    // -------------------------------------------------------------------------
    // Enums (258-323)
    // -------------------------------------------------------------------------

    /** The placement of an enum, when the enum source is set. */
    function EnumConfig(n: Node): Option<BaseConfig>
    {
      if parameters.enumSource.None? then None else Some(parameters.enumSource.value(EnumName(n)))
    }

    /** One enum: placed by the enum source, its enumerators numbered as the counter goes. */
    method ProcessEnum(n: Node)
      requires EnumOk(n) && n.kind == EnumDecl
      modifies this`currentSource, this`writers, this`failed, this`switchCount, this`switchExpression
      ensures failed == old(failed)
      ensures BuffersOpened(old(writers), parameters, timestamp) ==>
        BuffersOpened(writers, parameters, timestamp) && Grown(old(writers), writers)
      ensures EnumConfig(n).None? || EnumConfig(n).value.source == "" ==>
        currentSource == old(currentSource) && writers == old(writers) && Switch() == old(Switch())
      ensures EnumConfig(n).Some? && EnumConfig(n).value.source != "" ==>
        var vs := EnumeratorValues(n, |n.children|, Context(), old(Switch()));
        && currentSource == EnumConfig(n).value.source
        && Switch() == vs.sw
        && writers == EnumWritten(old(writers), currentSource, n, vs.values, indent(indentLevel))
    {
      var enumName := Trim(n.spelling);
      if enumName == "" {
        enumName := n.siblingName;
      }
      if parameters.enumSource.None? {
        return;
      }
      var config := parameters.enumSource.value(enumName);
      if config.source == "" {
        return;
      }
      EnumInSource(n, config.source);
    }

    /** The enum's lines, written to the source the enum source chose. */
    method EnumInSource(n: Node, src: string)
      requires EnumOk(n) && n.kind == EnumDecl && src != ""
      modifies this`currentSource, this`writers, this`failed, this`switchCount, this`switchExpression
      ensures failed == old(failed) && currentSource == src
      ensures BuffersOpened(old(writers), parameters, timestamp) ==>
        BuffersOpened(writers, parameters, timestamp) && Grown(old(writers), writers)
      ensures
        var vs := EnumeratorValues(n, |n.children|, Context(), old(Switch()));
        Switch() == vs.sw && writers == EnumWritten(old(writers), src, n, vs.values, indent(indentLevel))
    {
      currentSource := src;
      WriteEnumerators(n);
    }

    /** The buffers after an enum's lines: none is created for an enum without enumerators. */
    function EnumWritten(ws: map<string, string>, source: string, n: Node, values: seq<Option<string>>, pad: string): map<string, string>
      requires |values| == |n.children|
    {
      if |n.children| == 0 then ws else Appended(ws, source, EnumText(n, values, |n.children|, util.tryParseNumber, pad))
    }

    /** The enumerator loop (296-319): the counter starts at 0. */
    method WriteEnumerators(n: Node)
      requires EnumOk(n) && currentSource != ""
      modifies this`writers, this`failed, this`switchCount, this`switchExpression
      ensures failed == old(failed)
      ensures BuffersOpened(old(writers), parameters, timestamp) ==>
        BuffersOpened(writers, parameters, timestamp) && Grown(old(writers), writers)
      ensures
        var vs := EnumeratorValues(n, |n.children|, Context(), old(Switch()));
        Switch() == vs.sw && writers == EnumWritten(old(writers), currentSource, n, vs.values, indent(indentLevel))
    {
      ghost var env := Context();
      ghost var pad := indent(indentLevel);
      ghost var parse := util.tryParseNumber;
      ghost var w0 := writers;
      ghost var b0 := Buffer(w0, currentSource, parameters, timestamp);
      ghost var s0 := Switch();
      ghost var values: seq<Option<string>> := [];
      var i := 0;
      var k: nat := 0;
      while k < |n.children|
        invariant 0 <= k <= |n.children|
        invariant failed == old(failed)
        invariant EnumProgress(n, k, i, env, s0, values, w0, b0, pad)
      {
        i, values := NextEnumerator(n, k, i, env, s0, values, w0, b0, pad);
        k := k + 1;
      }
      if k > 0 && BuffersOpened(w0, parameters, timestamp) {
        AppendKeepsBuffers(w0, currentSource, EnumText(n, values, k, util.tryParseNumber, pad), parameters, timestamp);
      }
    }

    /** The loop invariant of `WriteEnumerators` after `k` enumerators. */
    ghost predicate EnumProgress(n: Node, k: nat, i: int, env: Env, s0: SwitchState, values: seq<Option<string>>,
                                 w0: map<string, string>, b0: string, pad: string)
      requires EnumOk(n) && k <= |n.children|
      reads this`returnType, this`state, this`functionInfos, this`switchCount, this`switchExpression
      reads this`writers, this`currentSource, this`indentLevel
    {
      && Context() == env && pad == indent(indentLevel)
      && b0 == Buffer(w0, currentSource, parameters, timestamp)
      && EnumState(n, k, i, env, s0, values, w0, b0, pad, Switch(), writers, currentSource)
    }

    /** One turn of the enumerator loop, with the counter's `i++`. */
    method NextEnumerator(n: Node, k: nat, i: int, ghost env: Env, ghost s0: SwitchState, ghost values: seq<Option<string>>,
                          ghost w0: map<string, string>, ghost b0: string, ghost pad: string)
      returns (next: int, ghost values': seq<Option<string>>)
      requires EnumOk(n) && k < |n.children| && currentSource != ""
      requires EnumProgress(n, k, i, env, s0, values, w0, b0, pad)
      modifies this`writers, this`failed, this`switchCount, this`switchExpression
      ensures failed == old(failed)
      ensures EnumProgress(n, k + 1, next, env, s0, values', w0, b0, pad)
    {
      var c := n.children[k];
      assert EnumeratorOk(c);
      ghost var sw := Switch();
      ghost var w1 := writers;
      ghost var v;
      next, v := WriteEnumerator(c, i);
      EnumStateStep(n, k, i, env, s0, values, w0, b0, pad, sw, w1, currentSource, v, Switch(), writers, next,
                    parameters, timestamp);
      next := next + 1;
      values' := values + [v];
    }

    /**
     * One enumerator: `const NAME:i32 = value;`, where the value is the initializer's text
     * or the counter; an initializer `TryParseNumber` accepts resets the counter.
     */
    method WriteEnumerator(c: Node, i: int) returns (counter: int, ghost v: Option<string>)
      requires EnumeratorOk(c) && currentSource != ""
      modifies this`writers, this`failed, this`switchCount, this`switchExpression
      ensures |c.children| > 0 ==>
        var o := Tr(c.children[0], Context(), old(Switch()));
        v == Some(o.text) && Switch() == o.sw
      ensures |c.children| == 0 ==> v == None && Switch() == old(Switch())
      ensures counter + 1 == NextCounter(i, v, util.tryParseNumber)
      ensures failed == old(failed)
      ensures writers == Appended(old(writers), currentSource, indent(indentLevel) + EnumLine(c.spelling, EnumValueText(i, v)) + "\n")
    {
      counter := i;
      var name := c.spelling;
      var value := IntToString(i);
      v := None;
      if |c.children| > 0 {
        var child := Process(c.children[0]);
        value := child.expression;
        v := Some(child.expression);
        var parsed := util.tryParseNumber(child.expression);
        if parsed.Some? {
          counter := parsed.value;
        }
      }
      var expr := "const " + name + ":i32 = " + value + ";";
      IndentedWriteLine(expr);
    }

    /** The enum pass: top-level enums only, outside system headers. */
    method VisitEnums(tu: Node)
      requires EnumsOk(tu) && BuffersOpened(writers, parameters, timestamp)
      modifies this`currentSource, this`writers, this`failed, this`switchCount, this`switchExpression
      ensures failed == old(failed)
      ensures BuffersOpened(writers, parameters, timestamp) && Grown(old(writers), writers)
    {
      var i := 0;
      while i < |tu.children|
        invariant 0 <= i <= |tu.children| && failed == old(failed)
        invariant BuffersOpened(writers, parameters, timestamp) && Grown(old(writers), writers)
      {
        var c := tu.children[i];
        if !c.inSystemHeader && c.kind == EnumDecl {
          ghost var before := writers;
          ProcessEnum(c);
          GrownTrans(old(writers), before, writers);
        }
        i := i + 1;
      }
    }

    // -------------------------------------------------------------------------
    // Global variables (325-376)
    // -------------------------------------------------------------------------

    function GlobalConfig(n: Node): Option<BaseConfig>
    {
      if parameters.globalVariableSource.None? then None else Some(parameters.globalVariableSource.value(n.spelling))
    }

    /** One global: translated, given to the hook, finished and made a `const`. */
    method ProcessGlobal(n: Node)
      requires WellFormed(n) && n.kind == VarDecl
      modifies this`currentSource, this`writers, this`failed, this`switchCount, this`switchExpression
      ensures failed == old(failed)
      ensures BuffersOpened(old(writers), parameters, timestamp) ==>
        BuffersOpened(writers, parameters, timestamp) && Grown(old(writers), writers)
      ensures GlobalConfig(n).None? || GlobalConfig(n).value.source == "" ==>
        currentSource == old(currentSource) && writers == old(writers) && Switch() == old(Switch())
      ensures GlobalConfig(n).Some? && GlobalConfig(n).value.source != "" ==>
        var src := GlobalConfig(n).value.source;
        var o := Tr(n, Context(), old(Switch()));
        && currentSource == src && Switch() == o.sw
        && writers == Appended(old(writers), src, indent(indentLevel) + GlobalConst(Hooked(parameters, n, o.text)) + "\n")
    {
      if parameters.globalVariableSource.None? {
        return;
      }
      var config := parameters.globalVariableSource.value(n.spelling);
      if config.source == "" {
        return;
      }
      currentSource := config.source;
      WriteGlobal(n);
    }

    /** The global's line in the current source: its text, hooked, finished and made a `const`. */
    method WriteGlobal(n: Node)
      requires WellFormed(n) && n.kind == VarDecl && currentSource != ""
      modifies this`writers, this`failed, this`switchCount, this`switchExpression
      ensures failed == old(failed)
      ensures BuffersOpened(old(writers), parameters, timestamp) ==>
        BuffersOpened(writers, parameters, timestamp) && Grown(old(writers), writers)
      ensures
        var o := Tr(n, Context(), old(Switch()));
        && Switch() == o.sw
        && writers == Appended(old(writers), currentSource, indent(indentLevel) + GlobalConst(Hooked(parameters, n, o.text)) + "\n")
    {
      var line := GlobalLineOf(n);
      ghost var w0 := writers;
      IndentedWriteLine(line);
      if BuffersOpened(w0, parameters, timestamp) {
        AppendKeepsBuffers(w0, currentSource, indent(indentLevel) + line + "\n", parameters, timestamp);
      }
    }

    /** The text of a global declaration (355-367, the statements before the write). */
    method GlobalLineOf(n: Node) returns (line: string)
      requires WellFormed(n) && n.kind == VarDecl
      modifies this`switchCount, this`switchExpression
      ensures
        var o := Tr(n, Context(), old(Switch()));
        Switch() == o.sw && line == GlobalConst(Hooked(parameters, n, o.text))
    {
      var res := Process(n);
      if parameters.customGlobalVariableProcessor.Some? {
        res.expression := parameters.customGlobalVariableProcessor.value(n, res.expression);
      }
      if !EndsWith(res.expression, ";") {
        res.expression := res.expression + ";";
      }
      line := "const " + res.expression;
    }

    /** The global-variable pass: top-level variables only, outside system headers. */
    method VisitGlobalVariables(tu: Node)
      requires GlobalsOk(tu) && BuffersOpened(writers, parameters, timestamp)
      modifies this`currentSource, this`writers, this`failed, this`switchCount, this`switchExpression
      ensures failed == old(failed)
      ensures BuffersOpened(writers, parameters, timestamp) && Grown(old(writers), writers)
    {
      var i := 0;
      while i < |tu.children|
        invariant 0 <= i <= |tu.children| && failed == old(failed)
        invariant BuffersOpened(writers, parameters, timestamp) && Grown(old(writers), writers)
      {
        var c := tu.children[i];
        if !c.inSystemHeader && c.kind == VarDecl {
          ghost var before := writers;
          ProcessGlobal(c);
          GrownTrans(old(writers), before, writers);
        }
        i := i + 1;
      }
    }

    // -------------------------------------------------------------------------
    // Structs (99-256)
    // -------------------------------------------------------------------------

    /** Struct preprocessing over the children of `n`. */
    method VisitStructsPreprocess(n: Node)
      modifies this`structInfos
      ensures structInfos == PreprocessStructs(old(structInfos), visitedStructs, n, |n.children|, parameters.structSource)
      decreases n, 1
    {
      var i := 0;
      while i < |n.children|
        invariant 0 <= i <= |n.children|
        invariant structInfos == PreprocessStructs(old(structInfos), visitedStructs, n, i, parameters.structSource)
      {
        VisitStructsPreprocessCursor(n.children[i]);
        i := i + 1;
      }
    }

    /** The preprocessing visitor at one cursor: a record is registered, not entered; anything else is entered. */
    method VisitStructsPreprocessCursor(c: Node)
      modifies this`structInfos
      ensures structInfos == PreprocessStructsAt(old(structInfos), visitedStructs, c, parameters.structSource)
      decreases c, 2
    {
      if c.inSystemHeader {
        return;
      }
      if c.kind == StructDecl || c.kind == UnionDecl {
        var structName := c.spelling;
        if structName == "" {
          structName := c.siblingName;
          if structName == "" {
            structName := "_";
          }
        }
        if structName !in visitedStructs {
          var sc := parameters.structSource(structName);
          structInfos := structInfos[structName := StructInfo(structName, sc)];
        }
      } else {
        VisitStructsPreprocess(c);
      }
    }

    /** The state struct emission changes. */
    function Emitted(): Emission
      reads this`writers, this`visitedStructs, this`currentSource, this`currentStructConfig, this`failed
    {
      Emission(writers, visitedStructs, currentSource, currentStructConfig, failed)
    }

    /** What struct emission reads. */
    function StructContext(): StructSetting
      reads this`structInfos, this`returnType, this`state, this`functionInfos, this`indentLevel
    {
      StructSetting(structInfos, Context(), parameters, timestamp, indent(indentLevel))
    }

    /** Struct emission over the children of `n`; an exception stops it. */
    method VisitStructs(n: Node)
      requires StructsOk(n)
      modifies this`visitedStructs, this`currentStructConfig, this`currentSource, this`writers, this`failed
      modifies this`switchCount, this`switchExpression
      ensures Emitted() == EmitStructs(n, |n.children|, StructContext(), old(Emitted()))
      decreases n, 0
    {
      ghost var e := StructContext();
      var i := 0;
      while i < |n.children| && !failed
        invariant 0 <= i <= |n.children| && StructContext() == e
        invariant Emitted() == EmitStructs(n, i, e, old(Emitted()))
      {
        ghost var m := Emitted();
        assert !m.failed && StructsOkAt(n.children[i]);
        VisitStructsCursor(n.children[i]);
        assert Emitted() == EmitStructsAt(n.children[i], e, m);
        i := i + 1;
      }
      if i < |n.children| {
        EmitStructsStops(n, i, |n.children|, e, old(Emitted()), Emitted());
      }
    }

    /** The struct visitor at one cursor. */
    method VisitStructsCursor(c: Node)
      requires StructsOkAt(c) && !failed
      modifies this`visitedStructs, this`currentStructConfig, this`currentSource, this`writers, this`failed
      modifies this`switchCount, this`switchExpression
      ensures Emitted() == EmitStructsAt(c, StructContext(), old(Emitted()))
      decreases c, 3
    {
      if c.inSystemHeader {
        return;
      }
      if c.kind == StructDecl || c.kind == UnionDecl {
        ProcessStruct(c);
      } else if c.kind == FieldDecl {
        ProcessField(c);
      } else {
        VisitStructs(c);
      }
    }

    /** A record: its name, the emitted-once guard, the registry lookup and the configuration's output. */
    method ProcessStruct(c: Node)
      requires StructsOk(c)
      modifies this`visitedStructs, this`currentStructConfig, this`currentSource, this`writers, this`failed
      modifies this`switchCount, this`switchExpression
      ensures Emitted() == EmitRecord(c, StructContext(), old(Emitted()))
      decreases c, 2
    {
      var structName := c.spelling;
      if structName == "" {
        structName := c.siblingName;
        if structName == "" {
          structName := "_";
        }
      }
      assert structName == StructName(c);
      if structName in visitedStructs || |c.children| == 0 {
        return;
      }
      if structName !in structInfos {
        // the dictionary lookup raises
        failed := true;
        return;
      }
      var info := structInfos[structName];
      currentStructConfig := info.config;
      if currentStructConfig.source == "" {
        return;
      }
      currentSource := currentStructConfig.source;
      EmitStruct(c, structName);
    }

    /** An emitted record: opened, entered, closed (unless that raised) and marked. */
    method EmitStruct(c: Node, structName: string)
      requires StructsOk(c) && structName == StructName(c) && currentSource != ""
      modifies this`visitedStructs, this`currentStructConfig, this`currentSource, this`writers, this`failed
      modifies this`switchCount, this`switchExpression
      ensures Emitted() == EmitOpened(c, StructContext(), old(Emitted()))
      decreases c, 1
    {
      ghost var e := StructContext();
      ghost var s0 := Emitted();
      OpenStruct();
      ghost var headed := s0.(writers := Written(s0.writers, s0.source, StructHeader(s0.config), parameters, timestamp));
      assert Emitted() == headed;
      VisitStructs(c);
      ghost var inner := Emitted();
      assert inner == EmitStructs(c, |c.children|, e, headed);
      if failed {
        return;
      }
      CloseStruct();
      if failed {
        // the write through a null writer raises
        return;
      }
      visitedStructs := visitedStructs + {structName};
    }

    /** `struct NAME {` when the configuration names the struct; nothing written opens no buffer. */
    method OpenStruct()
      requires currentSource != ""
      modifies this`writers
      ensures writers == Written(old(writers), currentSource, StructHeader(currentStructConfig), parameters, timestamp)
    {
      if currentStructConfig.name != "" {
        var w := CurrentWriter();
        if w.Some? {
          writers := writers[w.value := writers[w.value] + ("struct " + currentStructConfig.name + " {\n")];
        }
      }
    }

    /** The closing brace when the configuration in force names the struct, then a blank line. */
    method CloseStruct()
      modifies this`writers, this`failed
      ensures currentSource == "" ==> failed && writers == old(writers)
      ensures currentSource != "" ==>
        failed == old(failed)
        && writers == Written(old(writers), currentSource, StructClose(currentStructConfig, indent(indentLevel)) + "\n", parameters, timestamp)
    {
      if currentStructConfig.name != "" {
        IndentedWriteLine("}");
      }
      WriteLine();
      WrittenTwice(old(writers), currentSource, StructClose(currentStructConfig, indent(indentLevel)), "\n", parameters, timestamp);
    }

    /** A field: `name: type,` on its own line of the current output. */
    method ProcessField(c: Node)
      requires WellFormed(c)
      modifies this`writers, this`failed, this`switchCount, this`switchExpression
      ensures Emitted() == EmitField(c, StructContext(), old(Emitted()))
    {
      var fieldName := util.fixSpecialWords(c.spelling);
      var expr := Process(c);
      var result := fieldName + ": " + expr.info.ty.rustType;
      result := result + ",";
      IndentedWriteLine(result);
    }

    // -------------------------------------------------------------------------
    // Functions (378-446, 1377-1509)
    // -------------------------------------------------------------------------

    /** Function preprocessing over the children of `n`. */
    method VisitFunctionsPreprocess(n: Node)
      requires functionInfos.Valid()
      modifies this`functionInfos, this`returnType, this`functionName
      ensures functionInfos == PreprocessFunctions(old(functionInfos), n, |n.children|, parameters, util)
      decreases n, 1
    {
      var i := 0;
      while i < |n.children|
        invariant 0 <= i <= |n.children| && functionInfos.Valid()
        invariant functionInfos == PreprocessFunctions(old(functionInfos), n, i, parameters, util)
      {
        VisitFunctionsPreprocessCursor(n.children[i]);
        i := i + 1;
      }
    }

    /** The preprocessing visitor at one cursor: a definition is registered, then entered. */
    method VisitFunctionsPreprocessCursor(c: Node)
      requires functionInfos.Valid()
      modifies this`functionInfos, this`returnType, this`functionName
      ensures functionInfos == PreprocessFunctionsAt(old(functionInfos), c, parameters, util)
      decreases c, 2
    {
      if c.inSystemHeader {
        return;
      }
      if c.kind == FunctionDecl {
        var body := FindBody(c);
        if body.None? {
          return;
        }
        functionName := c.spelling;
        ProcessFunctionPreprocess(c);
      }
      VisitFunctionsPreprocess(c);
    }

    /** `ProcessFunctionPreprocess`: the entry is created, given its signature, then its configuration. */
    method ProcessFunctionPreprocess(c: Node)
      requires functionInfos.Valid() && functionName == c.spelling
      modifies this`functionInfos, this`returnType
      ensures returnType == c.resultType
      ensures functionInfos == old(functionInfos).Put(c.spelling, FunctionEntry(c, parameters, util))
    {
      var name := c.spelling;
      returnType := c.resultType;
      ghost var t0 := functionInfos;
      var info := FunctionInfo(name, "", NoConfig);
      functionInfos := functionInfos.Put(name, info);
      var sb := SignatureOf(c.params);
      info := info.(signature := sb);
      t0.PutTwice(name, FunctionInfo(name, "", NoConfig), info);
      functionInfos := functionInfos.Put(name, functionInfos.infos[name].(signature := sb));
      var fc: BaseConfig;
      if parameters.functionSource.None? {
        fc := BaseConfig(functionName, "");
      } else {
        fc := parameters.functionSource.value(functionInfos.infos[functionName]);
      }
      t0.PutTwice(name, info, info.(config := fc));
      functionInfos := functionInfos.Put(functionName, functionInfos.infos[functionName].(config := fc));
    }

    /** The signature loop (1390-1408): `type name` per parameter, `, ` between them. */
    method SignatureOf(ps: seq<Param>) returns (sb: string)
      ensures sb == Signature(ps, util)
    {
      sb := "";
      var i := 0;
      while i < |ps|
        invariant 0 <= i <= |ps|
        invariant sb == Join(", ", ParamDecls(ps[..i], util)) + (if 0 < i < |ps| then ", " else "")
      {
        var spelling := ps[i].spelling;
        var typeName := ps[i].typeName;
        var name := util.fixSpecialWords(spelling);
        SignatureStep(ps, i, sb, util);
        sb := sb + typeName;
        sb := sb + " ";
        sb := sb + name;
        if i < |ps| - 1 {
          sb := sb + ", ";
        }
        i := i + 1;
      }
      assert ps[..|ps|] == ps;
    }

    /** `ArgumentHelper`: `name:type` is recorded and written. */
    method ArgumentHelper(p: Param)
      requires currentSource != ""
      modifies this`items, this`writers, this`failed
      ensures items == old(items) + [util.fixSpecialWords(p.spelling) + ":" + p.typeName]
      ensures failed == old(failed)
      ensures writers == Appended(old(writers), currentSource, util.fixSpecialWords(p.spelling) + ":" + p.typeName)
    {
      var name := util.fixSpecialWords(p.spelling);
      var sb := name + ":" + p.typeName;
      items := items + [sb];
      Write(sb);
    }

    /** `WriteFunctionStart`: the `unsafe fn` header with the configured name. */
    method WriteFunctionStart(c: Node) returns (ghost header: string)
      requires c.spelling in functionInfos.infos && currentSource != ""
      modifies this`returnType, this`items, this`writers, this`failed
      ensures returnType == c.resultType && failed == old(failed)
      ensures items == Arguments(c.params, util)
      ensures header == HeaderText(functionInfos.infos[c.spelling].config.name, Arguments(c.params, util), c.resultType, indent(indentLevel))
      ensures writers == Appended(old(writers), currentSource, header)
    {
      var name := c.spelling;
      returnType := c.resultType;
      var info := functionInfos.infos[name];
      ghost var pad := indent(indentLevel);
      ghost var opening := pad + "unsafe fn " + info.config.name + "(";
      WriteHeaderStart(info.config.name);
      ghost var w1 := writers;
      WriteArguments(c.params);
      ghost var args := Join(", ", items);
      assert writers == Appended(w1, currentSource, args);
      AppendedTwice(old(writers), currentSource, opening, args);
      ghost var w2 := writers;
      WriteHeaderEnd();
      ghost var closing := ")" + (if !returnType.isVoid then " -> " + returnType.rustType + " " else "") + pad + "{\n";
      AppendedTwice(old(writers), currentSource, opening + args, closing);
      HeaderTextParts(info.config.name, items, c.resultType, pad);
      header := HeaderText(info.config.name, items, c.resultType, pad);
    }

    /** The header up to the parameters: `unsafe fn NAME(`, indented. */
    method WriteHeaderStart(name: string)
      requires currentSource != ""
      modifies this`writers, this`failed
      ensures failed == old(failed) && currentSource in writers
      ensures writers == Appended(old(writers), currentSource, indent(indentLevel) + "unsafe fn " + name + "(")
    {
      IndentedWrite("unsafe fn ");
      Write(name);
      AppendedTwice(old(writers), currentSource, indent(indentLevel) + "unsafe fn ", name);
      Write("(");
      AppendedTwice(old(writers), currentSource, indent(indentLevel) + "unsafe fn " + name, "(");
    }

    /** The header after the parameters: `)`, the return type unless void, and the indented `{`. */
    method WriteHeaderEnd()
      requires currentSource != ""
      modifies this`writers, this`failed
      ensures failed == old(failed)
      ensures writers == Appended(old(writers), currentSource,
        ")" + (if !returnType.isVoid then " -> " + returnType.rustType + " " else "") + indent(indentLevel) + "{\n")
    {
      Write(")");
      ghost var t := ")";
      ghost var result := "";
      if !returnType.isVoid {
        Write(" -> " + returnType.rustType + " ");
        result := " -> " + returnType.rustType + " ";
        AppendedTwice(old(writers), currentSource, t, result);
        t := t + result;
      }
      IndentedWriteLine("{");
      AppendedTwice(old(writers), currentSource, t, indent(indentLevel) + "{" + "\n");
      HeaderEndParts(t, result, indent(indentLevel));
    }

    /** The parameter loop of `WriteFunctionStart` (1450-1461): `, ` between the arguments. */
    method WriteArguments(ps: seq<Param>)
      requires currentSource != "" && currentSource in writers
      modifies this`items, this`writers, this`failed
      ensures failed == old(failed)
      ensures items == Arguments(ps, util)
      ensures writers == old(writers)[currentSource := old(writers)[currentSource] + Join(", ", items)]
    {
      ghost var src := currentSource;
      ghost var w0 := writers;
      ghost var b0 := writers[src];
      items := [];
      assert b0 + Join(", ", items) == b0;
      assert w0[src := b0] == w0;
      var first := true;
      var i := 0;
      while i < |ps|
        invariant 0 <= i <= |ps| && (first <==> i == 0) && failed == old(failed)
        invariant items == Arguments(ps[..i], util)
        invariant writers == w0[src := b0 + Join(", ", items)]
      {
        ghost var before := items;
        ghost var w := writers;
        NextArgument(ps[i], first);
        ArgumentStep(ps, i, util, before, items, w0, w, writers, src, b0, first);
        first := false;
        i := i + 1;
      }
      assert ps[..|ps|] == ps;
    }

    /** One turn of the parameter loop: the separator unless first, then the argument. */
    method NextArgument(p: Param, first: bool)
      requires currentSource != "" && currentSource in writers
      modifies this`items, this`writers, this`failed
      ensures failed == old(failed)
      ensures items == old(items) + [util.fixSpecialWords(p.spelling) + ":" + p.typeName]
      ensures writers == old(writers)[currentSource :=
        old(writers)[currentSource] + ((if first then "" else ", ") + (util.fixSpecialWords(p.spelling) + ":" + p.typeName))]
    {
      ghost var b := writers[currentSource];
      ghost var arg := util.fixSpecialWords(p.spelling) + ":" + p.typeName;
      if !first {
        Write(", ");
        assert writers[currentSource] == b + ", ";
        ArgumentHelper(p);
        assert b + ", " + arg == b + (", " + arg);
      } else {
        ArgumentHelper(p);
        assert "" + arg == arg;
      }
    }

    /** The body visitor (1365-1375): each statement with text, finished, on its own line. */
    method WriteFunctionBody(body: Node) returns (ghost o: Out)
      requires WellFormed(body) && currentSource != "" && currentSource in writers
      modifies this`writers, this`failed, this`switchCount, this`switchExpression
      ensures failed == old(failed)
      ensures o == BodyText(body, |body.children|, Context(), old(Switch()), indent(indentLevel))
      ensures Switch() == o.sw && writers == old(writers)[currentSource := old(writers)[currentSource] + o.text]
    {
      ghost var env := Context();
      ghost var s0 := Switch();
      ghost var pad := indent(indentLevel);
      ghost var w0 := writers;
      ghost var b0 := writers[currentSource];
      assert b0 + BodyText(body, 0, env, s0, pad).text == b0;
      assert w0[currentSource := b0] == w0;
      var i := 0;
      while i < |body.children|
        invariant 0 <= i <= |body.children| && failed == old(failed)
        invariant Context() == env && pad == indent(indentLevel)
        invariant Switch() == BodyText(body, i, env, s0, pad).sw
        invariant writers == w0[currentSource := b0 + BodyText(body, i, env, s0, pad).text]
      {
        ghost var w := writers;
        assert WellFormed(body.children[i]);
        var res := Process(body.children[i]);
        BodyStep(body, i, env, s0, pad, w0, w, currentSource, b0, res.expression, parameters, timestamp);
        if res.expression != "" {
          IndentedWriteLine(util.ensureStatementFinished(res.expression));
        }
        i := i + 1;
      }
      o := BodyText(body, |body.children|, env, s0, pad);
    }

    /** `ProcessFunction`: header, the body one level deeper, the closing brace and a blank line. */
    method ProcessFunction(c: Node, body: Node) returns (ghost header: string, ghost o: Out)
      requires WellFormed(body) && c.spelling in functionInfos.infos && currentSource != ""
      modifies this`returnType, this`items, this`indentLevel, this`writers, this`failed
      modifies this`switchCount, this`switchExpression
      ensures failed == old(failed) && returnType == c.resultType && indentLevel == old(indentLevel)
      ensures items == Arguments(c.params, util)
      ensures header == HeaderText(functionInfos.infos[c.spelling].config.name, Arguments(c.params, util), c.resultType, indent(indentLevel))
      ensures o == BodyText(body, |body.children|, Env(c.resultType, old(state), old(functionInfos), util),
                            old(Switch()), indent(old(indentLevel) + 1))
      ensures Switch() == o.sw
      ensures writers == Appended(old(writers), currentSource, header + o.text + (indent(indentLevel) + "}" + "\n") + "\n")
    {
      ghost var env := Env(c.resultType, state, functionInfos, util);
      ghost var s0 := Switch();
      ghost var pad := indent(indentLevel + 1);
      header := WriteFunctionStart(c);
      o := WriteBodyAndClose(body, env, s0, pad);
      AppendedTwice(old(writers), currentSource, header, o.text + (indent(indentLevel) + "}" + "\n") + "\n");
      Regroup(header, o.text, indent(indentLevel) + "}" + "\n", "\n");
    }

    /** The body one level deeper, then the closing brace at the function's level and a blank line. */
    method WriteBodyAndClose(body: Node, ghost env: Env, ghost s0: SwitchState, ghost pad: string) returns (ghost o: Out)
      requires WellFormed(body) && currentSource != "" && currentSource in writers
      requires env == Context() && s0 == Switch() && pad == indent(indentLevel + 1)
      modifies this`indentLevel, this`writers, this`failed, this`switchCount, this`switchExpression
      ensures failed == old(failed) && indentLevel == old(indentLevel)
      ensures o == BodyText(body, |body.children|, env, s0, pad)
      ensures Switch() == o.sw
      ensures writers == Appended(old(writers), currentSource, o.text + (indent(indentLevel) + "}" + "\n") + "\n")
    {
      indentLevel := indentLevel + 1;
      o := WriteFunctionBody(body);
      indentLevel := indentLevel - 1;
      CloseFunction();
      AppendedTwice(old(writers), currentSource, o.text, indent(indentLevel) + "}" + "\n" + "\n");
      Regroup("", o.text, indent(indentLevel) + "}" + "\n", "\n");
    }

    /** The closing brace at the function's level, then a blank line. */
    method CloseFunction()
      requires currentSource != ""
      modifies this`writers, this`failed
      ensures failed == old(failed)
      ensures writers == Appended(old(writers), currentSource, indent(indentLevel) + "}" + "\n" + "\n")
    {
      IndentedWriteLine("}");
      WriteLine();
      AppendedTwice(old(writers), currentSource, indent(indentLevel) + "}" + "\n", "\n");
    }

    /** Function emission over the children of `n`. */
    method VisitFunctions(n: Node)
      requires FunctionsOk(n) && BuffersOpened(writers, parameters, timestamp)
      requires DefinitionsReached(n, |n.children|) <= functionInfos.infos.Keys
      modifies this`functionName, this`currentSource, this`returnType, this`items, this`indentLevel
      modifies this`writers, this`failed, this`switchCount, this`switchExpression
      ensures failed == old(failed) && indentLevel == old(indentLevel)
      ensures BuffersOpened(writers, parameters, timestamp) && Grown(old(writers), writers)
      decreases n, 0
    {
      var i := 0;
      while i < |n.children|
        invariant 0 <= i <= |n.children| && failed == old(failed) && indentLevel == old(indentLevel)
        invariant BuffersOpened(writers, parameters, timestamp) && Grown(old(writers), writers)
      {
        DefinitionsReachedMono(n, i + 1, |n.children|);
        ghost var before := writers;
        VisitFunctionsCursor(n.children[i]);
        GrownTrans(old(writers), before, writers);
        i := i + 1;
      }
    }

    /** The function visitor at one cursor: a configured definition is written, then its children are visited. */
    method VisitFunctionsCursor(c: Node)
      requires FunctionsOkAt(c) && BuffersOpened(writers, parameters, timestamp)
      requires DefinitionsReachedAt(c) <= functionInfos.infos.Keys
      modifies this`functionName, this`currentSource, this`returnType, this`items, this`indentLevel
      modifies this`writers, this`failed, this`switchCount, this`switchExpression
      ensures failed == old(failed) && indentLevel == old(indentLevel)
      ensures BuffersOpened(writers, parameters, timestamp) && Grown(old(writers), writers)
      decreases c, 1
    {
      if c.inSystemHeader {
        return;
      }
      if c.kind == FunctionDecl {
        var emitted := EmitDefinition(c);
        if !emitted {
          return;
        }
      }
      ghost var before := writers;
      VisitFunctions(c);
      GrownTrans(old(writers), before, writers);
    }

    /**
     * A function declaration at the cursor: one without a body or without an output source
     * ends the visit (`emitted` is false); any other is written by EmitFunction.
     */
    method EmitDefinition(c: Node) returns (emitted: bool)
      requires c.kind == FunctionDecl && BuffersOpened(writers, parameters, timestamp)
      requires FindBody(c).Some? ==> WellFormed(FindBody(c).value) && c.spelling in functionInfos.infos
      modifies this`functionName, this`currentSource, this`returnType, this`items, this`indentLevel
      modifies this`writers, this`failed, this`switchCount, this`switchExpression
      ensures emitted == (FindBody(c).Some? && functionInfos.infos[c.spelling].config.source != "")
      ensures failed == old(failed) && indentLevel == old(indentLevel)
      ensures BuffersOpened(writers, parameters, timestamp) && Grown(old(writers), writers)
    {
      var body := FindBody(c);
      if body.None? {
        return false;
      }
      functionName := c.spelling;
      var fc := functionInfos.infos[functionName].config;
      if fc.source == "" {
        return false;
      }
      currentSource := fc.source;
      EmitFunction(c, body.value);
      return true;
    }

    /**
     * `ProcessFunction` seen from the pass: the header, the body and the closing brace are
     * appended to the current buffer, and the buffers stay headed and only grow.
     */
    method EmitFunction(c: Node, body: Node)
      requires WellFormed(body) && c.spelling in functionInfos.infos && currentSource != ""
      requires BuffersOpened(writers, parameters, timestamp)
      modifies this`returnType, this`items, this`indentLevel, this`writers, this`failed
      modifies this`switchCount, this`switchExpression
      ensures failed == old(failed) && returnType == c.resultType && indentLevel == old(indentLevel)
      ensures items == Arguments(c.params, util)
      ensures var o := BodyText(body, |body.children|, Env(c.resultType, old(state), old(functionInfos), util),
                                old(Switch()), indent(old(indentLevel) + 1));
              var header := HeaderText(functionInfos.infos[c.spelling].config.name, Arguments(c.params, util),
                                       c.resultType, indent(indentLevel));
              && Switch() == o.sw
              && writers == Appended(old(writers), currentSource, header + o.text + (indent(indentLevel) + "}" + "\n") + "\n")
      ensures BuffersOpened(writers, parameters, timestamp) && Grown(old(writers), writers)
    {
      ghost var header, o := ProcessFunction(c, body);
      AppendKeepsBuffers(old(writers), currentSource, header + o.text + (indent(indentLevel) + "}" + "\n") + "\n",
                         parameters, timestamp);
    }

    // -------------------------------------------------------------------------
    // Run (1511-1529)
    // -------------------------------------------------------------------------

    /**
     * The passes in their order: enums, globals, structs (registration, then emission),
     * functions (registration, then emission). An exception ends the run; only struct
     * emission can raise, since every function that emission meets is registered by then.
     */
    method Run(tu: Node)
      requires UnitOk(tu) && !failed && functionInfos.Valid() && BuffersOpened(writers, parameters, timestamp)
      modifies this`state, this`returnType, this`functionName, this`visitedStructs, this`structInfos
      modifies this`functionInfos, this`items, this`currentSource, this`writers, this`currentStructConfig
      modifies this`switchCount, this`switchExpression, this`indentLevel, this`failed
      ensures BuffersOpened(writers, parameters, timestamp) && Grown(old(writers), writers)
      ensures structInfos == PreprocessStructs(old(structInfos), old(visitedStructs), tu, |tu.children|, parameters.structSource)
      ensures failed ==> state == Structs && functionInfos == old(functionInfos)
      ensures !failed ==>
        state == Functions
        && functionInfos == PreprocessFunctions(old(functionInfos), tu, |tu.children|, parameters, util)
    {
      RunDeclarations(tu);
      ghost var before := writers;
      RunStructs(tu);
      GrownTrans(old(writers), before, writers);
      if failed {
        return;
      }
      before := writers;
      RunFunctions(tu);
      GrownTrans(old(writers), before, writers);
    }

    /** The enum pass, then the global-variable pass. */
    method RunDeclarations(tu: Node)
      requires EnumsOk(tu) && GlobalsOk(tu) && BuffersOpened(writers, parameters, timestamp)
      modifies this`state, this`currentSource, this`writers, this`failed, this`switchCount, this`switchExpression
      ensures state == GlobalVariables && failed == old(failed)
      ensures BuffersOpened(writers, parameters, timestamp) && Grown(old(writers), writers)
    {
      state := Enums;
      VisitEnums(tu);
      state := GlobalVariables;
      ghost var before := writers;
      VisitGlobalVariables(tu);
      GrownTrans(old(writers), before, writers);
    }

    /** Struct registration, then struct emission. */
    method RunStructs(tu: Node)
      requires StructsOk(tu) && BuffersOpened(writers, parameters, timestamp)
      modifies this`state, this`structInfos, this`visitedStructs, this`currentStructConfig, this`currentSource
      modifies this`writers, this`failed, this`switchCount, this`switchExpression
      ensures state == Structs
      ensures structInfos == PreprocessStructs(old(structInfos), old(visitedStructs), tu, |tu.children|, parameters.structSource)
      ensures Emitted() == EmitStructs(tu, |tu.children|, StructContext(), old(Emitted()))
      ensures BuffersOpened(writers, parameters, timestamp) && Grown(old(writers), writers)
    {
      state := Structs;
      VisitStructsPreprocess(tu);
      ghost var e := StructContext();
      ghost var em := Emitted();
      VisitStructs(tu);
      EmitStructsGrows(tu, |tu.children|, e, em);
    }

    /** Function registration, then function emission; neither raises once every definition is registered. */
    method RunFunctions(tu: Node)
      requires FunctionsOk(tu) && functionInfos.Valid() && BuffersOpened(writers, parameters, timestamp)
      modifies this`state, this`functionInfos, this`returnType, this`functionName, this`currentSource, this`items
      modifies this`indentLevel, this`writers, this`failed, this`switchCount, this`switchExpression
      ensures state == Functions && failed == old(failed)
      ensures functionInfos == PreprocessFunctions(old(functionInfos), tu, |tu.children|, parameters, util)
      ensures BuffersOpened(writers, parameters, timestamp) && Grown(old(writers), writers)
    {
      state := Functions;
      VisitFunctionsPreprocess(tu);
      FunctionRegistryComplete(old(functionInfos), tu, |tu.children|, parameters, util);
      VisitFunctions(tu);
    }
  }

  /** The regrouping of a function's text into header, body and closing lines. */
  lemma Regroup(a: string, b: string, c: string, d: string)
    ensures a + (b + c + d) == a + b + c + d && b + (c + d) == b + c + d
  {
  }

  /** One statement more in the declaration-list and block loops. */
  lemma StatementsStep(n: Node, i: nat, env: Env, s0: SwitchState, head: string, sb: string, t: string, u: Utility)
    requires WellFormed(n) && i < |n.children|
    requires sb == head + Statements(Texts(n, 0, i, env, s0).texts, u)
    requires t == Tr(n.children[i], env, Texts(n, 0, i, env, s0).sw).text
    ensures sb + u.ensureStatementFinished(t) == head + Statements(Texts(n, 0, i + 1, env, s0).texts, u)
  {
    var p := Texts(n, 0, i, env, s0);
    var ts := p.texts + [t];
    assert Texts(n, 0, i + 1, env, s0).texts == ts;
    assert ts[..|ts| - 1] == p.texts;
  }

  /** A block's text: its statements between braces. */
  lemma BlockOfStatements(n: Node, env: Env, s0: SwitchState, sb: string)
    requires WellFormed(n) && n.kind == CompoundStmt
    requires sb == "{\n" + Statements(Texts(n, 0, |n.children|, env, s0).texts, env.util)
    ensures TrList(n, env, s0) == Out(sb + "}\n", Texts(n, 0, |n.children|, env, s0).sw)
  {
  }

  /** One child more in the label loop. */
  lemma LabelStep(n: Node, i: nat, env: Env, s0: SwitchState, head: string, sb: string, t: string)
    requires WellFormed(n) && i < |n.children|
    requires sb == head + Join("", Texts(n, 0, i, env, s0).texts)
    requires t == Tr(n.children[i], env, Texts(n, 0, i, env, s0).sw).text
    ensures sb + t == head + Join("", Texts(n, 0, i + 1, env, s0).texts)
  {
    var p := Texts(n, 0, i, env, s0);
    assert Texts(n, 0, i + 1, env, s0).texts == p.texts + [t];
    JoinEmptySeparator(p.texts, t);
  }

  lemma LabelStart(n: Node, env: Env, s0: SwitchState, head: string)
    requires WellFormed(n)
    ensures head == head + Join("", Texts(n, 0, 0, env, s0).texts)
    ensures Texts(n, 0, 0, env, s0).sw == s0
  {
    assert Texts(n, 0, 0, env, s0).texts == [];
    assert head + "" == head;
  }

  lemma LabelEnd(n: Node, env: Env, s0: SwitchState)
    requires WellFormed(n) && n.kind == LabelStmt
    ensures TrList(n, env, s0).text == n.spelling + ":;\n" + Join("", Texts(n, 0, |n.children|, env, s0).texts)
    ensures TrList(n, env, s0).sw == Texts(n, 0, |n.children|, env, s0).sw
  {
  }

  /** One element more in the initializer-list loop. */
  lemma InitListStep(n: Node, i: nat, env: Env, s0: SwitchState, sb: string, t: string)
    requires WellFormed(n) && i < |n.children|
    requires sb == "[ " + Join(", ", Texts(n, 0, i, env, s0).texts) + (if 0 < i < |n.children| then ", " else "")
    requires t == Tr(n.children[i], env, Texts(n, 0, i, env, s0).sw).text
    ensures sb + t == "[ " + Join(", ", Texts(n, 0, i + 1, env, s0).texts)
  {
    var p := Texts(n, 0, i, env, s0);
    assert Texts(n, 0, i + 1, env, s0).texts == p.texts + [t];
    JoinSnoc(", ", p.texts, t);
  }

  /** The state of the enumerator loop after `k` enumerators: the values, the counter and the buffer. */
  ghost predicate EnumState(n: Node, k: nat, i: int, env: Env, s0: SwitchState, values: seq<Option<string>>,
                            w0: map<string, string>, b0: string, pad: string,
                            sw: SwitchState, ws: map<string, string>, source: string)
    requires EnumOk(n) && k <= |n.children|
  {
    && EnumeratorValues(n, k, env, s0) == Values(values, sw)
    && i == EnumCounter(values, env.util.tryParseNumber)
    && (k == 0 ==> ws == w0)
    && (k > 0 ==> ws == w0[source := b0 + EnumText(n, values, k, env.util.tryParseNumber, pad)])
  }

  /** One enumerator written keeps the loop state. */
  lemma EnumStateStep(n: Node, k: nat, i: int, env: Env, s0: SwitchState, values: seq<Option<string>>,
                      w0: map<string, string>, b0: string, pad: string,
                      sw: SwitchState, ws: map<string, string>, source: string,
                      v: Option<string>, sw': SwitchState, ws': map<string, string>, counter: int,
                      p: ConversionParameters, timestamp: string)
    requires EnumOk(n) && k < |n.children|
    requires EnumState(n, k, i, env, s0, values, w0, b0, pad, sw, ws, source)
    requires b0 == Buffer(w0, source, p, timestamp)
    requires |n.children[k].children| > 0 ==>
      v == Some(Tr(n.children[k].children[0], env, sw).text) && sw' == Tr(n.children[k].children[0], env, sw).sw
    requires |n.children[k].children| == 0 ==> v == None && sw' == sw
    requires counter + 1 == NextCounter(i, v, env.util.tryParseNumber)
    requires ws' == ws[source := Buffer(ws, source, p, timestamp)
                                 + (pad + EnumLine(n.children[k].spelling, EnumValueText(i, v)) + "\n")]
    ensures EnumState(n, k + 1, counter + 1, env, s0, values + [v], w0, b0, pad, sw', ws', source)
  {
    var parse := env.util.tryParseNumber;
    EnumValuesStep(n, k, env, s0, values, sw, v, sw');
    EnumTextSnoc(n, values, v, parse, pad);
    BufferStep(w0, ws, source, b0, EnumText(n, values, k, parse, pad),
               pad + EnumLine(n.children[k].spelling, EnumValueText(i, v)) + "\n", k, p, timestamp);
  }

  /** One more write to a buffer already extended by `t`. */
  lemma Extend(w0: map<string, string>, w: map<string, string>, source: string, b0: string, t: string, s: string,
               p: ConversionParameters, timestamp: string)
    requires w == w0[source := b0 + t]
    ensures w[source := Buffer(w, source, p, timestamp) + s] == w0[source := b0 + (t + s)]
  {
    assert (b0 + t) + s == b0 + (t + s);
  }

  lemma HeaderEndParts(t: string, result: string, pad: string)
    requires t == ")" || t == ")" + result
    requires t == ")" ==> result == ""
    ensures t + (pad + "{" + "\n") == ")" + result + pad + "{\n"
  {
    if t == ")" {
      assert ")" + result == ")";
    }
  }

  /** One statement more in the function body loop: its line, if any, extends the buffer. */
  lemma BodyStep(body: Node, i: nat, env: Env, s0: SwitchState, pad: string, w0: map<string, string>,
                 w: map<string, string>, source: string, b0: string, t: string, p: ConversionParameters,
                 timestamp: string)
    requires WellFormed(body) && i < |body.children|
    requires w == w0[source := b0 + BodyText(body, i, env, s0, pad).text]
    requires t == Tr(body.children[i], env, BodyText(body, i, env, s0, pad).sw).text
    ensures BodyText(body, i + 1, env, s0, pad).sw == Tr(body.children[i], env, BodyText(body, i, env, s0, pad).sw).sw
    ensures t != "" ==> w[source := Buffer(w, source, p, timestamp) + (pad + env.util.ensureStatementFinished(t) + "\n")]
                        == w0[source := b0 + BodyText(body, i + 1, env, s0, pad).text]
    ensures t == "" ==> w == w0[source := b0 + BodyText(body, i + 1, env, s0, pad).text]
  {
    var q := BodyText(body, i, env, s0, pad);
    if t != "" {
      Extend(w0, w, source, b0, q.text, pad + env.util.ensureStatementFinished(t) + "\n", p, timestamp);
    } else {
      assert q.text + "" == q.text;
    }
  }

  /** Appending to the buffer `k` writes have reached, as one append to the buffers before them. */
  lemma BufferStep(w0: map<string, string>, w1: map<string, string>, source: string, b0: string, text: string,
                   line: string, k: nat, p: ConversionParameters, timestamp: string)
    requires b0 == Buffer(w0, source, p, timestamp)
    requires k == 0 ==> w1 == w0 && text == ""
    requires k > 0 ==> w1 == w0[source := b0 + text]
    ensures w1[source := Buffer(w1, source, p, timestamp) + line] == w0[source := b0 + (text + line)]
  {
    if k == 0 {
      assert text + line == line;
    } else {
      assert Buffer(w1, source, p, timestamp) == b0 + text;
      assert (b0 + text) + line == b0 + (text + line);
    }
  }

  /** One turn of the parameter loop keeps the buffer equal to the arguments so far, joined. */
  lemma ArgumentStep(ps: seq<Param>, i: nat, u: Utility, before: seq<string>, items: seq<string>,
                     w0: map<string, string>, w: map<string, string>, w1: map<string, string>,
                     src: string, b0: string, first: bool)
    requires i < |ps| && (first <==> i == 0)
    requires before == Arguments(ps[..i], u) && w == w0[src := b0 + Join(", ", before)]
    requires items == before + [u.fixSpecialWords(ps[i].spelling) + ":" + ps[i].typeName]
    requires w1 == w[src := w[src] + ((if first then "" else ", ") + (u.fixSpecialWords(ps[i].spelling) + ":" + ps[i].typeName))]
    ensures items == Arguments(ps[..i + 1], u)
    ensures w1 == w0[src := b0 + Join(", ", items)]
  {
    var arg := u.fixSpecialWords(ps[i].spelling) + ":" + ps[i].typeName;
    var sep := if first then "" else ", ";
    ArgumentsSnoc(ps, i, u);
    JoinSnoc(", ", before, arg);
    NextArgumentText(w0, src, b0, Join(", ", before), sep, arg);
    if first {
      assert Join(", ", before) + sep + arg == Join(", ", items);
    } else {
      assert Join(", ", before) + sep + arg == Join(", ", items);
    }
  }

  /** The buffer after one more argument, as one append to the buffer before the loop. */
  lemma NextArgumentText(w0: map<string, string>, src: string, b0: string, joined: string, sep: string, arg: string)
    ensures w0[src := b0 + joined][src := (b0 + joined) + (sep + arg)] == w0[src := b0 + (joined + sep + arg)]
  {
    assert (b0 + joined) + (sep + arg) == b0 + (joined + sep + arg);
  }

  /** Joining with an empty separator is concatenation. */
  lemma JoinEmptySeparator(xs: seq<string>, x: string)
    ensures Join("", xs + [x]) == Join("", xs) + x
  {
    if |xs| == 0 {
      assert xs + [x] == [x];
    } else {
      assert (xs + [x])[..|xs|] == xs;
    }
  }

  /** One parameter more in the signature loop. */
  lemma SignatureStep(ps: seq<Param>, i: nat, sb: string, u: Utility)
    requires i < |ps| && sb == Join(", ", ParamDecls(ps[..i], u)) + (if 0 < i < |ps| then ", " else "")
    ensures var decl := sb + ps[i].typeName + " " + u.fixSpecialWords(ps[i].spelling);
            (if i < |ps| - 1 then decl + ", " else decl)
            == Join(", ", ParamDecls(ps[..i + 1], u)) + (if 0 < i + 1 < |ps| then ", " else "")
  {
    var x := ps[i].typeName + " " + u.fixSpecialWords(ps[i].spelling);
    var before := ParamDecls(ps[..i], u);
    ParamDeclsSnoc(ps, i, u);
    JoinSnoc(", ", before, x);
    Regroup3(sb, ps[i].typeName, " ", u.fixSpecialWords(ps[i].spelling));
    if i == 0 {
      assert sb == "";
    }
  }

  lemma ParamDeclsSnoc(ps: seq<Param>, i: nat, u: Utility)
    requires i < |ps|
    ensures ParamDecls(ps[..i + 1], u) == ParamDecls(ps[..i], u) + [ps[i].typeName + " " + u.fixSpecialWords(ps[i].spelling)]
  {
    assert ps[..i + 1][..i] == ps[..i];
  }

  lemma Regroup3(a: string, b: string, c: string, d: string)
    ensures a + b + c + d == a + (b + c + d)
  {
  }

  /** Joining one more element puts one separator before it. */
  lemma JoinSnoc(sep: string, xs: seq<string>, x: string)
    ensures Join(sep, xs + [x]) == if |xs| == 0 then x else Join(sep, xs) + sep + x
  {
    if |xs| == 0 {
      assert xs + [x] == [x];
    } else {
      assert (xs + [x])[..|xs|] == xs;
    }
  }
}
