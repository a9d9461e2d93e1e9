/**
 * Properties of the node translator: switch-free subtrees neither read nor write the
 * switch state, a switch becomes an if / else-if chain with one arm per case, and the
 * per-kind rules have the shapes the generator promises.
 */
module TranslateFacts {
  import opened Wrappers
  import opened Strings
  import opened Syntax
  import opened Registry
  import opened Translate

  // ---------------------------------------------------------------------------
  // Isolation: a subtree without switch parts leaves the switch state alone and
  // produces the same text whatever the switch state is.
  // ---------------------------------------------------------------------------

  lemma {:induction false} IsolatedTr(n: Node, env: Env, s1: SwitchState, s2: SwitchState)
    requires WellFormed(n) && SwitchFree(n)
    ensures Tr(n, env, s1).sw == s1
    ensures Tr(n, env, s2).sw == s2
    ensures Tr(n, env, s1).text == Tr(n, env, s2).text
    decreases n, 3, 0
  {
    if IsOperandKind(n.kind) {
      IsolatedOperands(n, env, s1, s2);
    } else if IsLiteralKind(n.kind) {
      IsolatedLiteral(n, env, s1, s2);
    } else if IsLeafKind(n.kind) {
      IsolatedLeaf(n, env, s1, s2);
    } else if IsCompoundExprKind(n.kind) {
      IsolatedCompoundExpr(n, env, s1, s2);
    } else if IsBranchKind(n.kind) {
      IsolatedBranch(n, env, s1, s2);
    } else {
      IsolatedList(n, env, s1, s2);
    }
  }

  predicate IsOperandKind(k: Kind)
  {
    k.EnumConstantDecl? || k.UnaryOperator? || k.ReturnStmt? || k.GotoStmt? || k.ConditionalOperator?
    || k.MemberRefExpr? || k.ArraySubscriptExpr? || k.UnexposedExpr?
  }

  predicate IsLiteralKind(k: Kind)
  {
    k.DeclRefExpr? || k.LabelRef? || k.IntegerLiteral? || k.FloatingLiteral? || k.CharacterLiteral?
    || k.StringLiteral? || k.BreakStmt? || k.ContinueStmt?
  }

  predicate IsCompoundExprKind(k: Kind)
  {
    k.UnaryExpr? || k.CompoundAssignOperator? || k.BinaryOperator? || k.CallExpr?
  }

  predicate IsBranchKind(k: Kind)
  {
    k.IfStmt? || k.ForStmt? || k.DoStmt? || k.WhileStmt?
  }

  predicate IsListKind(k: Kind)
  {
    k.LabelStmt? || k.VarDecl? || k.DeclStmt? || k.CompoundStmt? || k.InitListExpr?
  }

  predicate IsLeafKind(k: Kind)
  {
    k.ParenExpr? || k.CStyleCastExpr? || k.TypeRef? || k.StructDecl? || k.UnionDecl? || k.FieldDecl?
    || k.EnumDecl? || k.FunctionDecl? || k.OtherKind?
  }

  /** The expressions with a rule of their own, each isolated by its own lemma. */
  lemma {:induction false} IsolatedCompoundExpr(n: Node, env: Env, s1: SwitchState, s2: SwitchState)
    requires WellFormed(n) && SwitchFree(n) && IsCompoundExprKind(n.kind)
    ensures Tr(n, env, s1).sw == s1
    ensures Tr(n, env, s2).sw == s2
    ensures Tr(n, env, s1).text == Tr(n, env, s2).text
    decreases n, 2, 1
  {
    if n.kind == UnaryExpr {
      IsolatedUnaryExpr(n, env, s1, s2);
    } else if n.kind == CallExpr {
      IsolatedCall(n, env, s1, s2);
    } else {
      IsolatedBinary(n, env, s1, s2);
    }
  }

  /** The branching and looping statements, each isolated by its own lemma. */
  lemma {:induction false} IsolatedBranch(n: Node, env: Env, s1: SwitchState, s2: SwitchState)
    requires WellFormed(n) && SwitchFree(n) && IsBranchKind(n.kind)
    ensures Tr(n, env, s1).sw == s1
    ensures Tr(n, env, s2).sw == s2
    ensures Tr(n, env, s1).text == Tr(n, env, s2).text
    decreases n, 2, 1
  {
    if n.kind == IfStmt {
      IsolatedIf(n, env, s1, s2);
    } else if n.kind == ForStmt {
      IsolatedFor(n, env, s1, s2);
    } else if n.kind == DoStmt {
      IsolatedDo(n, env, s1, s2);
    } else {
      var c0 := n.children[0];
      IsolatedTr(c0, env, s1, s2);
      IsolatedTr(n.children[1], env, s1, s2);
      IsolatedAppendGZ(c0, Tr(c0, env, s1).text, env, s1, s2);
    }
  }

  /** Declarations, blocks and initialiser lists. */
  lemma {:induction false} IsolatedList(n: Node, env: Env, s1: SwitchState, s2: SwitchState)
    requires WellFormed(n) && SwitchFree(n) && IsListKind(n.kind)
    ensures Tr(n, env, s1).sw == s1
    ensures Tr(n, env, s2).sw == s2
    ensures Tr(n, env, s1).text == Tr(n, env, s2).text
    decreases n, 2, 1
  {
    if n.kind == VarDecl {
      IsolatedVarDecl(n, env, s1, s2);
    } else {
      IsolatedTexts(n, 0, |n.children|, env, s1, s2);
    }
  }

  /** The kinds whose text is built from their children's texts alone. */
  lemma {:induction false} IsolatedOperands(n: Node, env: Env, s1: SwitchState, s2: SwitchState)
    requires WellFormed(n) && SwitchFree(n)
    requires IsOperandKind(n.kind)
    ensures Tr(n, env, s1).sw == s1
    ensures Tr(n, env, s2).sw == s2
    ensures Tr(n, env, s1).text == Tr(n, env, s2).text
    decreases n, 2, 1
  {
    IsolatedChildren(n, env, s1, s2);
  }

  /** Literals and references: the text does not depend on the switch state. */
  lemma {:induction false} IsolatedLiteral(n: Node, env: Env, s1: SwitchState, s2: SwitchState)
    requires WellFormed(n) && IsLiteralKind(n.kind)
    ensures Tr(n, env, s1).sw == s1
    ensures Tr(n, env, s2).sw == s2
    ensures Tr(n, env, s1).text == Tr(n, env, s2).text
  {
  }

  /** The kinds that pass one child's text through. */
  lemma {:induction false} IsolatedLeaf(n: Node, env: Env, s1: SwitchState, s2: SwitchState)
    requires WellFormed(n) && SwitchFree(n)
    requires IsLeafKind(n.kind)
    ensures Tr(n, env, s1).sw == s1
    ensures Tr(n, env, s2).sw == s2
    ensures Tr(n, env, s1).text == Tr(n, env, s2).text
    decreases n, 2, 1
  {
    IsolatedChildren(n, env, s1, s2);
  }

  /** Every child of a switch-free node is isolated. */
  lemma {:induction false} IsolatedChildren(n: Node, env: Env, s1: SwitchState, s2: SwitchState)
    requires WellFormed(n) && SwitchFree(n)
    ensures forall i :: 0 <= i < |n.children| ==>
      Tr(n.children[i], env, s1).sw == s1 && Tr(n.children[i], env, s2).sw == s2
      && Tr(n.children[i], env, s1).text == Tr(n.children[i], env, s2).text
    decreases n, 2, 0
  {
    forall i | 0 <= i < |n.children|
      ensures Tr(n.children[i], env, s1).sw == s1
      ensures Tr(n.children[i], env, s2).sw == s2
      ensures Tr(n.children[i], env, s1).text == Tr(n.children[i], env, s2).text
    {
      IsolatedTr(n.children[i], env, s1, s2);
    }
  }

  lemma {:induction false} IsolatedTexts(n: Node, lo: nat, hi: nat, env: Env, s1: SwitchState, s2: SwitchState)
    requires WellFormed(n) && SwitchFree(n) && lo <= hi <= |n.children|
    ensures Texts(n, lo, hi, env, s1).sw == s1
    ensures Texts(n, lo, hi, env, s2).sw == s2
    ensures Texts(n, lo, hi, env, s1).texts == Texts(n, lo, hi, env, s2).texts
    decreases n, 1, hi
  {
    if hi > lo {
      IsolatedTexts(n, lo, hi - 1, env, s1, s2);
      var c := n.children[hi - 1];
      IsolatedTr(c, env, s1, s2);
      assert Texts(n, lo, hi, env, s1) == Many(Texts(n, lo, hi - 1, env, s1).texts + [Tr(c, env, s1).text], s1);
      assert Texts(n, lo, hi, env, s2) == Many(Texts(n, lo, hi - 1, env, s2).texts + [Tr(c, env, s2).text], s2);
    }
  }

  /** Child `j` is processed in the state the children before it left. */
  lemma {:induction false} TextsPrefix(n: Node, lo: nat, j: nat, hi: nat, env: Env, sw: SwitchState)
    requires WellFormed(n) && lo <= j < hi <= |n.children|
    ensures Texts(n, lo, hi, env, sw).texts[j - lo] == Tr(n.children[j], env, Texts(n, lo, j, env, sw).sw).text
    decreases hi
  {
    if j < hi - 1 {
      TextsPrefix(n, lo, j, hi - 1, env, sw);
    }
  }

  lemma {:induction false} IsolatedUnaryExpr(n: Node, env: Env, s1: SwitchState, s2: SwitchState)
    requires WellFormed(n) && SwitchFree(n) && n.kind == UnaryExpr
    ensures TrUnaryExpr(n, env, s1).sw == s1
    ensures TrUnaryExpr(n, env, s2).sw == s2
    ensures TrUnaryExpr(n, env, s1).text == TrUnaryExpr(n, env, s2).text
    decreases n, 2, 0
  {
    if |n.children| > 0 {
      IsolatedTr(n.children[0], env, s1, s2);
    }
  }

  lemma {:induction false} IsolatedBinary(n: Node, env: Env, s1: SwitchState, s2: SwitchState)
    requires WellFormed(n) && SwitchFree(n) && (n.kind == BinaryOperator || n.kind == CompoundAssignOperator)
    ensures TrBinary(n, env, s1).sw == s1
    ensures TrBinary(n, env, s2).sw == s2
    ensures TrBinary(n, env, s1).text == TrBinary(n, env, s2).text
    decreases n, 2, 0
  {
    var lhs, rhs := n.children[0], n.children[1];
    IsolatedTr(lhs, env, s1, s2);
    IsolatedTr(rhs, env, s1, s2);
    IsolatedAppendGZ(lhs, Tr(lhs, env, s1).text, env, s1, s2);
    IsolatedAppendGZ(rhs, Tr(rhs, env, s1).text, env, s1, s2);
    if |rhs.children| > 0 {
      assert SwitchFree(rhs.children[0]) && WellFormed(rhs.children[0]);
      IsolatedTr(rhs.children[0], env, s1, s2);
    }
  }

  lemma {:induction false} IsolatedCall(n: Node, env: Env, s1: SwitchState, s2: SwitchState)
    requires WellFormed(n) && SwitchFree(n) && n.kind == CallExpr
    ensures TrCall(n, env, s1).sw == s1
    ensures TrCall(n, env, s2).sw == s2
    ensures TrCall(n, env, s1).text == TrCall(n, env, s2).text
    decreases n, 2, 0
  {
    IsolatedTr(n.children[0], env, s1, s2);
    IsolatedTexts(n, 1, |n.children|, env, s1, s2);
  }

  lemma {:induction false} IsolatedIf(n: Node, env: Env, s1: SwitchState, s2: SwitchState)
    requires WellFormed(n) && SwitchFree(n) && n.kind == IfStmt
    ensures TrIf(n, env, s1).sw == s1
    ensures TrIf(n, env, s2).sw == s2
    ensures TrIf(n, env, s1).text == TrIf(n, env, s2).text
    decreases n, 2, 0
  {
    var cs := n.children;
    IsolatedTr(cs[0], env, s1, s2);
    IsolatedAppendGZ(cs[0], Tr(cs[0], env, s1).text, env, s1, s2);
    IsolatedTr(cs[1], env, s1, s2);
    if |cs| > 2 {
      IsolatedTr(cs[2], env, s1, s2);
    }
  }

  lemma {:induction false} IsolatedForClauses(n: Node, env: Env, s1: SwitchState, s2: SwitchState)
    requires WellFormed(n) && SwitchFree(n) && n.kind == ForStmt
    ensures ForClauses(n, env, s1).sw == s1
    ensures ForClauses(n, env, s2).sw == s2
    ensures ForClauses(n, env, s1) == ForClauses(n, env, s2).(sw := s1)
    decreases n, 1, 0
  {
    forall i | 0 <= i < |n.children|
      ensures Tr(n.children[i], env, s1).sw == s1
      ensures Tr(n.children[i], env, s2).sw == s2
      ensures Tr(n.children[i], env, s1).text == Tr(n.children[i], env, s2).text
    {
      IsolatedTr(n.children[i], env, s1, s2);
    }
  }

  lemma {:induction false} IsolatedFor(n: Node, env: Env, s1: SwitchState, s2: SwitchState)
    requires WellFormed(n) && SwitchFree(n) && n.kind == ForStmt
    ensures TrFor(n, env, s1).sw == s1
    ensures TrFor(n, env, s2).sw == s2
    ensures TrFor(n, env, s1).text == TrFor(n, env, s2).text
    decreases n, 2, 0
  {
    IsolatedForClauses(n, env, s1, s2);
    var p := ForClauses(n, env, s1);
    IsolatedReplaceCommas(p.body, p.bodyText, env, s1, s2);
  }

  lemma {:induction false} IsolatedDo(n: Node, env: Env, s1: SwitchState, s2: SwitchState)
    requires WellFormed(n) && SwitchFree(n) && n.kind == DoStmt
    ensures TrDo(n, env, s1).sw == s1
    ensures TrDo(n, env, s2).sw == s2
    ensures TrDo(n, env, s1).text == TrDo(n, env, s2).text
    decreases n, 2, 0
  {
    IsolatedTr(n.children[0], env, s1, s2);
    IsolatedTr(n.children[1], env, s1, s2);
    IsolatedAppendGZ(n.children[1], Tr(n.children[1], env, s1).text, env, s1, s2);
  }

  lemma {:induction false} IsolatedVarDecl(n: Node, env: Env, s1: SwitchState, s2: SwitchState)
    requires WellFormed(n) && SwitchFree(n) && n.kind == VarDecl
    ensures TrVarDecl(n, env, s1).sw == s1
    ensures TrVarDecl(n, env, s2).sw == s2
    ensures TrVarDecl(n, env, s1).text == TrVarDecl(n, env, s2).text
    decreases n, 2, 0
  {
    if |n.children| > 0 {
      IsolatedTr(n.children[|n.children| - 1], env, s1, s2);
    }
  }

  lemma {:induction false} IsolatedReplaceCommas(m: Node, text: string, env: Env, s1: SwitchState, s2: SwitchState)
    requires WellFormed(m) && SwitchFree(m)
    ensures ReplaceCommas(m, text, env, s1).sw == s1
    ensures ReplaceCommas(m, text, env, s2).sw == s2
    ensures ReplaceCommas(m, text, env, s1).text == ReplaceCommas(m, text, env, s2).text
    decreases m, 2, 0
  {
    if m.kind == BinaryOperator && m.binOp == Comma {
      var a, b := m.children[0], m.children[1];
      IsolatedTr(a, env, s1, s2);
      IsolatedReplaceCommas(a, Tr(a, env, s1).text, env, s1, s2);
      IsolatedTr(b, env, s1, s2);
      IsolatedReplaceCommas(b, Tr(b, env, s1).text, env, s1, s2);
    }
  }

  // ---------------------------------------------------------------------------
  // Comma splitting (557-573)
  // ---------------------------------------------------------------------------

  predicate IsComma(m: Node)
  {
    m.kind == BinaryOperator && m.binOp == Comma
  }

  /** The texts of the operands of a comma tree, left to right; any other node is its own operand. */
  function CommaTexts(m: Node, env: Env, sw: SwitchState): (r: seq<string>)
    requires WellFormed(m)
    ensures |r| > 0
  {
    if IsComma(m) then CommaTexts(m.children[0], env, sw) + CommaTexts(m.children[1], env, sw)
    else [Tr(m, env, sw).text]
  }

  /**
   * A switch-free comma tree becomes its operands' texts joined by `;`; any other node
   * keeps the text it has. The switch state is not touched.
   */
  lemma {:induction false} CommasJoined(m: Node, text: string, env: Env, sw: SwitchState)
    requires WellFormed(m) && SwitchFree(m)
    ensures ReplaceCommas(m, text, env, sw) == Out(if IsComma(m) then Join(";", CommaTexts(m, env, sw)) else text, sw)
  {
    if IsComma(m) {
      var a, b := m.children[0], m.children[1];
      assert SwitchFree(a) && SwitchFree(b);
      IsolatedTr(a, env, sw, sw);
      IsolatedTr(b, env, sw, sw);
      CommasJoined(a, Tr(a, env, sw).text, env, sw);
      CommasJoined(b, Tr(b, env, sw).text, env, sw);
      JoinAppend(";", CommaTexts(a, env, sw), CommaTexts(b, env, sw));
    }
  }

  lemma {:induction false} IsolatedAppendGZ(m: Node, text: string, env: Env, s1: SwitchState, s2: SwitchState)
    requires WellFormed(m) && SwitchFree(m)
    ensures AppendGZ(m, text, env, s1).sw == s1
    ensures AppendGZ(m, text, env, s2).sw == s2
    ensures AppendGZ(m, text, env, s1).text == AppendGZ(m, text, env, s2).text
    decreases m, 2, 0
  {
    if m.kind == ParenExpr || m.kind == UnaryOperator {
      var c := m.children[0];
      IsolatedTr(c, env, s1, s2);
      if |c.children| > 0 {
        assert SwitchFree(c.children[0]) && WellFormed(c.children[0]);
        IsolatedTr(c.children[0], env, s1, s2);
      }
    }
  }

  // ---------------------------------------------------------------------------
  // switch / case / default
  // ---------------------------------------------------------------------------

  /** A `case` or `default` whose own children contain no switch parts. */
  predicate FlatArm(c: Node)
  {
    (c.kind == CaseStmt || c.kind == DefaultStmt)
    && forall i :: 0 <= i < |c.children| ==> SwitchFree(c.children[i])
  }

  /** A statement directly inside a flat switch body: an arm, or anything without switch parts. */
  predicate FlatItem(c: Node)
  {
    FlatArm(c) || SwitchFree(c)
  }

  /** The number of arms among `cs`. */
  function Arms(cs: seq<Node>): (k: nat)
    ensures k <= |cs|
  {
    if cs == [] then 0 else Arms(cs[..|cs| - 1]) + (if FlatArm(cs[|cs| - 1]) then 1 else 0)
  }

  /**
   * One arm, from the switch state it starts in: `case v: b` tests the captured
   * scrutinee, opening with `if ` when it is the first arm and `} else if ` after
   * another; every arm bumps the arm counter.
   */
  lemma ArmText(c: Node, env: Env, st: SwitchState)
    requires WellFormed(c) && FlatArm(c)
    ensures c.kind == CaseStmt ==>
      Tr(c, env, st).text ==
        (if st.count > 0 then "} else if " else "if ") + st.expression + " == "
        + Tr(c.children[0], env, st).text + " {" + Tr(c.children[1], env, st).text
    ensures c.kind == DefaultStmt ==>
      Tr(c, env, st).text == (if st.count > 0 then "} else { " else "else { ") + Tr(c.children[0], env, st).text
    ensures Tr(c, env, st).sw == SwitchState(st.count + 1, st.expression)
  {
    IsolatedTr(c.children[0], env, st, st);
    if c.kind == CaseStmt {
      IsolatedTr(c.children[1], env, st, st);
    }
  }

  /** After the first `hi` children of a flat switch body the counter has advanced by the arms among them. */
  lemma {:induction false} FlatCount(n: Node, hi: nat, env: Env, sw: SwitchState)
    requires WellFormed(n) && hi <= |n.children|
    requires forall i :: 0 <= i < |n.children| ==> FlatItem(n.children[i])
    ensures Texts(n, 0, hi, env, sw).sw == SwitchState(sw.count + Arms(n.children[..hi]), sw.expression)
    decreases hi
  {
    if hi > 0 {
      FlatCount(n, hi - 1, env, sw);
      var p := Texts(n, 0, hi - 1, env, sw);
      var c := n.children[hi - 1];
      FlatItemStep(c, env, p.sw);
      assert n.children[..hi][..hi - 1] == n.children[..hi - 1];
    }
  }

  /** An arm bumps the counter by one; any other flat item leaves the state alone. */
  lemma FlatItemStep(c: Node, env: Env, st: SwitchState)
    requires WellFormed(c) && FlatItem(c)
    ensures Tr(c, env, st).sw == SwitchState(st.count + (if FlatArm(c) then 1 else 0), st.expression)
  {
    if FlatArm(c) {
      ArmText(c, env, st);
    } else {
      IsolatedTr(c, env, st, st);
    }
  }

  /**
   * A switch over a switch-free scrutinee whose body is a block of arms and plain
   * statements: the scrutinee text is captured once, the counter restarts at 0,
   * arm j sees the number of arms before it, and a closing `}` follows the block.
   */
  lemma SwitchTranslation(n: Node, env: Env, sw: SwitchState)
    requires WellFormed(n) && n.kind == SwitchStmt && SwitchFree(n.children[0])
    requires n.children[1].kind == CompoundStmt
    requires forall i :: 0 <= i < |n.children[1].children| ==> FlatItem(n.children[1].children[i])
    ensures var s := Tr(n.children[0], env, sw).text;
            var body := n.children[1];
            var texts := Texts(body, 0, |body.children|, env, SwitchState(0, s)).texts;
            && Tr(n, env, sw).text == BlockText(texts, env.util) + "}"
            && Tr(n, env, sw).sw == SwitchState(Arms(body.children), s)
            && (forall j :: 0 <= j < |body.children| ==>
                  texts[j] == Tr(body.children[j], env, SwitchState(Arms(body.children[..j]), s)).text)
  {
    var s := Tr(n.children[0], env, sw).text;
    var body := n.children[1];
    SwitchUnfold(n, env, sw);
    FlatCount(body, |body.children|, env, SwitchState(0, s));
    assert body.children[..|body.children|] == body.children;
    FlatTexts(body, env, s);
  }

  /** In a flat switch body, the text of child j is its translation after the arms before it. */
  lemma FlatTexts(body: Node, env: Env, s: string)
    requires WellFormed(body)
    requires forall i :: 0 <= i < |body.children| ==> FlatItem(body.children[i])
    ensures var texts := Texts(body, 0, |body.children|, env, SwitchState(0, s)).texts;
            forall j :: 0 <= j < |body.children| ==>
              texts[j] == Tr(body.children[j], env, SwitchState(Arms(body.children[..j]), s)).text
  {
    forall j | 0 <= j < |body.children|
      ensures Texts(body, 0, |body.children|, env, SwitchState(0, s)).texts[j]
        == Tr(body.children[j], env, SwitchState(Arms(body.children[..j]), s)).text
    {
      FlatText(body, j, env, s);
    }
  }

  /** The same for one child. */
  lemma FlatText(body: Node, j: nat, env: Env, s: string)
    requires WellFormed(body) && j < |body.children|
    requires forall i :: 0 <= i < |body.children| ==> FlatItem(body.children[i])
    ensures Texts(body, 0, |body.children|, env, SwitchState(0, s)).texts[j]
      == Tr(body.children[j], env, SwitchState(Arms(body.children[..j]), s)).text
  {
    var st := SwitchState(0, s);
    TextsPrefix(body, 0, j, |body.children|, env, st);
    FlatCount(body, j, env, st);
  }

  /** A switch with a switch-free scrutinee is its block, started with the count 0 and the scrutinee text. */
  lemma SwitchUnfold(n: Node, env: Env, sw: SwitchState)
    requires WellFormed(n) && n.kind == SwitchStmt && SwitchFree(n.children[0])
    requires n.children[1].kind == CompoundStmt
    ensures var s := Tr(n.children[0], env, sw).text;
            var body := n.children[1];
            var ts := Texts(body, 0, |body.children|, env, SwitchState(0, s));
            Tr(n, env, sw) == Out(BlockText(ts.texts, env.util) + "}", ts.sw)
  {
    IsolatedTr(n.children[0], env, SwitchState(0, sw.expression), sw);
    var s := Tr(n.children[0], env, sw).text;
    assert Tr(n, env, sw) == TrSwitch(n, env, sw);
    assert Tr(n.children[1], env, SwitchState(0, s)) == TrList(n.children[1], env, SwitchState(0, s));
  }

  /** A later arm continues the chain: it opens with `} else`. */
  lemma LaterArmContinues(c: Node, env: Env, st: SwitchState)
    requires WellFormed(c) && FlatArm(c) && st.count > 0
    ensures StartsWith(Tr(c, env, st).text, "} else ")
  {
    ArmText(c, env, st);
  }

  // ---------------------------------------------------------------------------
  // Operators
  // ---------------------------------------------------------------------------

  /** A pointer on the left of `+` is indexed: `a + b` becomes `a[b]`. */
  lemma PointerAddIsSubscript(a: string, b: string, opString: string, u: Utility)
    ensures BinaryText(Add, opString, true, a, b, u) == a + "[" + b + "]"
  {
  }

  /** Assigning or comparing a pointer with a literal zero uses the null sentinel. */
  lemma PointerZeroIsNull(op: BinOp, opString: string, a: string, b: string, u: Utility)
    requires op != Add && (op == Assign || u.isBooleanOperator(op)) && u.deparentize(b) == "0"
    ensures var r := BinaryText(op, opString, true, a, b, u);
            r == a + " " + opString + " " + NullPtr + (if u.isAssign(op) then ";" else "")
  {
  }

  /** Every assignment form that is not pointer indexing is a statement: it ends with `;`. */
  lemma AssignmentEndsStatement(op: BinOp, opString: string, lhsIsPointer: bool, a: string, b: string, u: Utility)
    requires u.isAssign(op) && !(lhsIsPointer && op == Add)
    ensures EndsWith(BinaryText(op, opString, lhsIsPointer, a, b, u), ";")
  {
  }

  /** Increment and decrement, prefix or postfix, are compound assignments by one. */
  lemma IncrementDecrement(op: UnOp, opString: string, a: string, u: Utility)
    ensures (op == PreInc || op == PostInc) ==> UnaryText(op, opString, a, u) == a + " += 1"
    ensures (op == PreDec || op == PostDec) ==> UnaryText(op, opString, a, u) == a + " -= 1"
  {
  }

  /** Address-of and dereference vanish; the other operators sit where `isUnaryOperatorPre` says. */
  lemma UnaryPlacement(op: UnOp, opString: string, a: string, u: Utility)
    requires op !in {PreInc, PostInc, PreDec, PostDec}
    ensures (op == AddrOf || op == Deref) ==> UnaryText(op, opString, a, u) == a
    ensures op == Not ==> UnaryText(op, opString, a, u) == (if u.isUnaryOperatorPre(op) then "!" + a else a + "!")
    ensures op !in {AddrOf, Deref, Not} ==>
      UnaryText(op, opString, a, u) == (if u.isUnaryOperatorPre(op) then opString + a else a + opString)
  {
  }

  // ---------------------------------------------------------------------------
  // sizeof and alignof (586-621)
  // ---------------------------------------------------------------------------

  /** `__alignof` is the default alignment, 4. */
  lemma AlignofIsFour(n: Node, env: Env, sw: SwitchState)
    requires WellFormed(n) && n.kind == UnaryExpr && n.unOp == TypeTrait && |n.children| > 0
    requires |n.tokens| > 0 && n.tokens[0] == "__alignof"
    ensures Tr(n, env, sw) == Out("4", Tr(n.children[0], env, sw).sw)
  {
  }

  /** `sizeof` of an expression with text is `std::mem::size_of(e)`. */
  lemma SizeofExpression(n: Node, env: Env, sw: SwitchState)
    requires WellFormed(n) && n.kind == UnaryExpr && n.unOp == TypeTrait && |n.children| > 0
    requires !(|n.tokens| > 0 && n.tokens[0] == "__alignof") && Tr(n.children[0], env, sw).text != ""
    ensures Tr(n, env, sw).text == "std::mem::size_of(" + Tr(n.children[0], env, sw).text + ")"
  {
  }

  /** `sizeof` of a type is `std::mem::size_of::<T>()`, with the type's rendered name. */
  lemma SizeofType(n: Node, env: Env, sw: SwitchState)
    requires WellFormed(n) && n.kind == UnaryExpr && n.unOp == TypeTrait && |n.children| > 0
    requires !(|n.tokens| > 0 && n.tokens[0] == "__alignof")
    requires n.children[0].kind == TypeRef && n.children[0].children == []
    ensures Tr(n, env, sw) == Out("std::mem::size_of::<" + n.children[0].ty.rustType + ">()", sw)
  {
    assert Tr(n.children[0], env, sw) == Out("", sw);
  }

  /** Any other unary expression is written as its tokens, run together. */
  lemma OtherUnaryExprTokens(n: Node, env: Env, sw: SwitchState)
    requires WellFormed(n) && n.kind == UnaryExpr && (n.unOp != TypeTrait || |n.children| == 0)
    ensures Tr(n, env, sw).text == Join("", n.tokens)
  {
  }

  // ---------------------------------------------------------------------------
  // Boolean materialization
  // ---------------------------------------------------------------------------

  /** Any binary operand other than the bitwise `&` and `|` is kept as it is, so comparisons and `&&`/`||` are unchanged. */
  lemma GZKeepsComparisons(m: Node, text: string, env: Env, sw: SwitchState)
    requires WellFormed(m) && m.kind == BinaryOperator && m.binOp != Or && m.binOp != And
    ensures AppendGZ(m, text, env, sw) == Out(text, sw)
  {
  }

  /** `!p` on a pointer compares it with the null sentinel. */
  lemma GZNotPointer(m: Node, text: string, env: Env, sw: SwitchState)
    requires WellFormed(m) && m.kind == UnaryOperator && m.unOp == LNot && m.children[0].ty.isPointer
    ensures AppendGZ(m, text, env, sw).text == Tr(m.children[0], env, sw).text + "== " + NullPtr
  {
  }

  /** `!e` on a switch-free, non-pointer, non-parenthesized operand compares it with zero. */
  lemma GZNotValue(m: Node, text: string, env: Env, sw: SwitchState)
    requires WellFormed(m) && m.kind == UnaryOperator && m.unOp == LNot
    requires !m.children[0].ty.isPointer && m.children[0].kind != ParenExpr && SwitchFree(m.children[0])
    ensures AppendGZ(m, text, env, sw) == Out(Tr(m.children[0], env, sw).text + "== 0", sw)
  {
    IsolatedTr(m.children[0], env, sw, sw);
  }

  /** A parenthesized arithmetic operand is compared with zero; the others stay as they are. */
  lemma GZParen(m: Node, text: string, env: Env, sw: SwitchState)
    requires WellFormed(m) && m.kind == ParenExpr && SwitchFree(m)
    ensures var inner := m.children[0];
            AppendGZ(m, text, env, sw) ==
              if inner.kind == BinaryOperator && env.util.isBinaryOperator(inner.binOp)
              then Out(env.util.parentize(Tr(inner, env, sw).text) + "!= 0", sw)
              else Out(text, sw)
  {
    IsolatedTr(m.children[0], env, sw, sw);
  }

  /** Any other unary operator on a pointer leaves the text as it is. */
  lemma GZOtherPointer(m: Node, text: string, env: Env, sw: SwitchState)
    requires WellFormed(m) && m.kind == UnaryOperator && m.unOp != LNot && m.children[0].ty.isPointer
    ensures AppendGZ(m, text, env, sw).text == text
  {
  }

  /**
   * A unary operator on a switch-free value that is not a pointer: a parenthesized operand
   * that is not arithmetic stays as it is; otherwise `!e` compares `e` with zero and any
   * other operator compares the whole expression by its type.
   */
  lemma GZUnaryValue(m: Node, text: string, env: Env, sw: SwitchState)
    requires WellFormed(m) && m.kind == UnaryOperator && !m.children[0].ty.isPointer && SwitchFree(m.children[0])
    ensures var op := m.children[0];
            var u := env.util;
            assert WellFormed(op);
            AppendGZ(m, text, env, sw) ==
              if op.kind == ParenExpr && !(op.children[0].kind == BinaryOperator && u.isBinaryOperator(op.children[0].binOp))
              then Out(text, sw)
              else if m.unOp == LNot then Out(Tr(op, env, sw).text + "== 0", sw)
              else Out(Compare(m.ty, text, u), sw)
  {
    var op := m.children[0];
    IsolatedTr(op, env, sw, sw);
    if op.kind == ParenExpr {
      IsolatedTr(op.children[0], env, sw, sw);
    }
  }

  /**
   * Any other operand, the bitwise `&` and `|` included, is compared by its type: a number
   * with `0`, a pointer with null, a value that is both first with `0` and then with null.
   */
  lemma GZByType(m: Node, text: string, env: Env, sw: SwitchState)
    requires WellFormed(m) && m.kind !in {ParenExpr, UnaryOperator}
    requires m.kind == BinaryOperator ==> m.binOp == Or || m.binOp == And
    ensures var u := env.util;
            var r := AppendGZ(m, text, env, sw);
            && r.sw == sw
            && (m.ty.isNumeric && !m.ty.isPointer ==> r.text == u.parentize(text) + " != 0")
            && (m.ty.isPointer && !m.ty.isNumeric ==> r.text == u.parentize(text) + " != " + NullPtr)
            && (m.ty.isPointer && m.ty.isNumeric ==>
                  r.text == u.parentize(u.parentize(text) + " != 0") + " != " + NullPtr)
            && (!m.ty.isPointer && !m.ty.isNumeric ==> r.text == text)
  {
    CompareByType(m.ty, text, env.util);
  }

  /** The comparison by type, case by case. */
  lemma CompareByType(t: TypeInfo, text: string, u: Utility)
    ensures t.isNumeric && !t.isPointer ==> Compare(t, text, u) == u.parentize(text) + " != 0"
    ensures t.isPointer && !t.isNumeric ==> Compare(t, text, u) == u.parentize(text) + " != " + NullPtr
    ensures t.isPointer && t.isNumeric ==>
              Compare(t, text, u) == u.parentize(u.parentize(text) + " != 0") + " != " + NullPtr
    ensures !t.isPointer && !t.isNumeric ==> Compare(t, text, u) == text
  {
  }

  // ---------------------------------------------------------------------------
  // Calls
  // ---------------------------------------------------------------------------

  /**
   * A switch-free call renders as `name(args)`, the name resolved through the function
   * registry, and leaves the switch state alone.
   */
  lemma CallShape(n: Node, env: Env, sw: SwitchState)
    requires WellFormed(n) && n.kind == CallExpr && SwitchFree(n)
    ensures Tr(n, env, sw).text ==
              ResolveCallee(env.functions, env.util.deparentize(Tr(n.children[0], env, sw).text))
              + "(" + Join(", ", Texts(n, 1, |n.children|, env, sw).texts) + ")"
    ensures Tr(n, env, sw).sw == sw
  {
    IsolatedTr(n.children[0], env, sw, sw);
    IsolatedTexts(n, 1, |n.children|, env, sw, sw);
  }

  /** The arguments of a switch-free call: one per child after the first, in child order. */
  lemma CallArguments(n: Node, env: Env, sw: SwitchState)
    requires WellFormed(n) && n.kind == CallExpr && SwitchFree(n)
    ensures var args := Texts(n, 1, |n.children|, env, sw).texts;
            && |args| == |n.children| - 1
            && forall i :: 1 <= i < |n.children| ==> args[i - 1] == Tr(n.children[i], env, sw).text
  {
    forall i | 1 <= i < |n.children|
      ensures Texts(n, 1, |n.children|, env, sw).texts[i - 1] == Tr(n.children[i], env, sw).text
    {
      TextsPrefix(n, 1, i, |n.children|, env, sw);
      IsolatedTexts(n, 1, i, env, sw, sw);
    }
  }

  // ---------------------------------------------------------------------------
  // Loops
  // ---------------------------------------------------------------------------

  /**
   * A `for` becomes its init (commas now `;`), then `while (cond) `, then the body with the
   * step (commas now `;`) as its first statement: right after the first `{` of a block, or
   * in a new block before a non-block body.
   */
  lemma ForShape(start: string, cond: string, step: string, bodyIsBlock: bool, body: string)
    ensures var init := ReplaceChar(start, ',', ";");
            var stepLine := ReplaceChar(step, ',', ";") + ";\n";
            var prefix := init + ";\n" + "while (" + cond + ") ";
            var r := ForText(start, cond, step, bodyIsBlock, body);
            && ',' !in init && ',' !in ReplaceChar(step, ',', ";")
            && (bodyIsBlock && '{' in body ==>
                  exists k :: 0 <= k < |body| && body[k] == '{' && '{' !in body[..k]
                    && r == prefix + body[..k + 1] + stepLine + body[k + 1..])
            && (!(bodyIsBlock && '{' in body) ==> r == prefix + "{\n" + stepLine + body + "}")
  {
    ReplaceCharRemovesAll(start, ',', ";");
    ReplaceCharRemovesAll(step, ',', ";");
    var init := ReplaceChar(start, ',', ";");
    var it := ReplaceChar(step, ',', ";");
    var k := IndexOfChar(body, '{');
    if bodyIsBlock && '{' in body {
      ForBlockText(init, cond, it, body, k);
    } else {
      ForBareText(init, cond, it, body);
    }
  }

  lemma ForBlockText(init: string, cond: string, it: string, body: string, k: nat)
    requires k < |body|
    ensures init + ";\n" + "while (" + cond + ") " + body[..k + 1] + it + ";\n" + body[k + 1..]
         == (init + ";\n" + "while (" + cond + ") ") + body[..k + 1] + (it + ";\n") + body[k + 1..]
  {
  }

  lemma ForBareText(init: string, cond: string, it: string, body: string)
    ensures init + ";\n" + "while (" + cond + ") {\n" + it + ";\n" + body + "}"
         == (init + ";\n" + "while (" + cond + ") ") + "{\n" + (it + ";\n") + body + "}"
  {
    assert "while (" + cond + ") {\n" == "while (" + cond + ") " + "{\n";
  }

  /** With three children, a clause whose top operator is boolean is the condition. */
  lemma ForThreeClauses(n: Node, env: Env, sw: SwitchState)
    requires WellFormed(n) && n.kind == ForStmt && |n.children| == 3
    ensures var p := ForClauses(n, env, sw);
            var u := env.util;
            var x := Tr(n.children[0], env, sw);
            var y := Tr(n.children[1], env, x.sw);
            && (IsCondition(n.children[1], u) ==> p.cond == Some(y.text) && p.step == None)
            && (!IsCondition(n.children[1], u) ==> p.step == Some(y.text))
            && (IsCondition(n.children[0], u) ==> p.start == None)
            && (!IsCondition(n.children[0], u) ==> p.start == Some(x.text))
            && (IsCondition(n.children[0], u) && !IsCondition(n.children[1], u) ==> p.cond == Some(x.text))
            && (!IsCondition(n.children[0], u) && !IsCondition(n.children[1], u) ==> p.cond == None)
  {
  }

  /**
   * A `do` becomes `while(true) ` and the body with `if !(cond) {break;}` just before the
   * body's last `}`, or a new block holding the body and then the test.
   */
  lemma DoShape(bodyIsBlock: bool, body: string, cond: string)
    ensures var brk := "if !(" + cond + ") {break;}";
            var r := DoText(bodyIsBlock, body, cond);
            && (bodyIsBlock && '}' in body ==>
                  exists k :: 0 <= k < |body| && body[k] == '}' && '}' !in body[k + 1..]
                    && r == "while(true) " + body[..k] + brk + body[k..])
            && (!(bodyIsBlock && '}' in body) ==> r == "while(true) {" + body + brk + "}")
  {
    var k := LastIndexOfChar(body, '}');
    if bodyIsBlock && '}' in body {
      assert 0 <= k < |body| && body[k] == '}' && '}' !in body[k + 1..];
    }
  }

  // ---------------------------------------------------------------------------
  // Statements and accesses
  // ---------------------------------------------------------------------------

  /**
   * A switch-free `return`: a value is returned as it is from a function that returns
   * neither `void` nor a pointer; a literal `0` returned as a pointer becomes the null
   * sentinel; an empty value gives a bare `return`.
   */
  lemma ReturnShape(n: Node, env: Env, sw: SwitchState)
    requires WellFormed(n) && n.kind == ReturnStmt && SwitchFree(n)
    ensures var t := env.returnType;
            var ret := if |n.children| > 0 then Tr(n.children[0], env, sw).text else "";
            var r := Tr(n, env, sw);
            && r.sw == sw
            && (!t.isVoid && !t.isPointer ==> r.text == "return " + ret)
            && (t.isPointer && ret == "0" ==> r.text == "return " + NullPtr)
            && ((t.isVoid || t.isPointer) && ret == "" ==> r.text == "return")
            && ((t.isVoid || t.isPointer) && ret != "" && !(t.isPointer && ret == "0") ==> r.text == "return " + ret)
  {
    if |n.children| > 0 {
      IsolatedTr(n.children[0], env, sw, sw);
    }
  }

  /**
   * A switch-free `if`: the condition is the condition's translation made boolean, then
   * the branch as a finished statement in braces, then ` else ` and the other branch in
   * braces when there is one. An empty branch is left empty.
   */
  lemma IfShape(n: Node, env: Env, sw: SwitchState)
    requires WellFormed(n) && n.kind == IfStmt && SwitchFree(n)
    ensures var u := env.util;
            var c := n.children[0];
            var cond := AppendGZ(c, Tr(c, env, sw).text, env, sw).text;
            var exec := Tr(n.children[1], env, sw).text;
            var thenPart := if exec != "" then u.curlize(u.ensureStatementFinished(exec)) else "";
            var elsePart :=
              if |n.children| > 2 then " else " + u.curlize(u.ensureStatementFinished(Tr(n.children[2], env, sw).text))
              else "";
            && Tr(n, env, sw).text == "if " + cond + " " + thenPart + elsePart
            && Tr(n, env, sw).sw == sw
  {
    var c := n.children[0];
    IsolatedTr(c, env, sw, sw);
    IsolatedAppendGZ(c, Tr(c, env, sw).text, env, sw, sw);
    IsolatedTr(n.children[1], env, sw, sw);
    if |n.children| > 2 {
      IsolatedTr(n.children[2], env, sw, sw);
    }
  }

  /** A switch-free `while`: the condition made boolean in parentheses, then the body as a finished statement in braces. */
  lemma WhileShape(n: Node, env: Env, sw: SwitchState)
    requires WellFormed(n) && n.kind == WhileStmt && SwitchFree(n)
    ensures var u := env.util;
            var c := n.children[0];
            var cond := AppendGZ(c, Tr(c, env, sw).text, env, sw).text;
            var body := Tr(n.children[1], env, sw).text;
            && Tr(n, env, sw).text == "while (" + cond + ") " + u.curlize(u.ensureStatementFinished(body))
            && Tr(n, env, sw).sw == sw
  {
    var c := n.children[0];
    IsolatedTr(c, env, sw, sw);
    IsolatedAppendGZ(c, Tr(c, env, sw).text, env, sw, sw);
    IsolatedTr(n.children[1], env, sw, sw);
  }

  /** `goto L` names the label as it is spelled. */
  lemma GotoShape(n: Node, env: Env, sw: SwitchState)
    requires WellFormed(n) && n.kind == GotoStmt
    ensures Tr(n, env, sw).text == "goto " + Tr(n.children[0], env, sw).text
    ensures n.children[0].kind == LabelRef ==> Tr(n, env, sw) == Out("goto " + n.children[0].spelling, sw)
  {
  }

  /**
   * A switch-free label becomes `L:;` on its own line, then its statements run together,
   * one text per child in child order.
   */
  lemma LabelShape(n: Node, env: Env, sw: SwitchState)
    requires WellFormed(n) && n.kind == LabelStmt && SwitchFree(n)
    ensures var texts := Texts(n, 0, |n.children|, env, sw).texts;
            && Tr(n, env, sw).text == n.spelling + ":;\n" + Join("", texts)
            && Tr(n, env, sw).sw == sw
            && |texts| == |n.children|
            && forall i :: 0 <= i < |n.children| ==> texts[i] == Tr(n.children[i], env, sw).text
  {
    IsolatedTexts(n, 0, |n.children|, env, sw, sw);
    forall i | 0 <= i < |n.children|
      ensures Texts(n, 0, |n.children|, env, sw).texts[i] == Tr(n.children[i], env, sw).text
    {
      TextsPrefix(n, 0, i, |n.children|, env, sw);
      IsolatedTexts(n, 0, i, env, sw, sw);
    }
  }

  /** A switch-free `c ? a : b` becomes an `if` expression; the condition is not made boolean. */
  lemma ConditionalShape(n: Node, env: Env, sw: SwitchState)
    requires WellFormed(n) && n.kind == ConditionalOperator && SwitchFree(n)
    ensures var cs := n.children;
            && Tr(n, env, sw).text ==
                 "if " + Tr(cs[0], env, sw).text + "{" + Tr(cs[1], env, sw).text
                 + "} else {" + Tr(cs[2], env, sw).text + "}"
            && Tr(n, env, sw).sw == sw
  {
    IsolatedTr(n.children[0], env, sw, sw);
    IsolatedTr(n.children[1], env, sw, sw);
    IsolatedTr(n.children[2], env, sw, sw);
  }

  /** Member access uses `.` whatever the operand's type, with the member name escaped. */
  lemma MemberShape(n: Node, env: Env, sw: SwitchState)
    requires WellFormed(n) && n.kind == MemberRefExpr && SwitchFree(n)
    ensures Tr(n, env, sw).text == Tr(n.children[0], env, sw).text + "." + env.util.fixSpecialWords(n.spelling)
    ensures Tr(n, env, sw).sw == sw
  {
    IsolatedTr(n.children[0], env, sw, sw);
  }

  /** A switch-free subscript `a[i]` keeps its form. */
  lemma SubscriptShape(n: Node, env: Env, sw: SwitchState)
    requires WellFormed(n) && n.kind == ArraySubscriptExpr && SwitchFree(n)
    ensures Tr(n, env, sw).text == Tr(n.children[0], env, sw).text + "[" + Tr(n.children[1], env, sw).text + "]"
    ensures Tr(n, env, sw).sw == sw
  {
    IsolatedTr(n.children[0], env, sw, sw);
    IsolatedTr(n.children[1], env, sw, sw);
  }

  /**
   * An unexposed expression is its last child, except that a pointer whose value reads `0`
   * once outer parentheses are dropped becomes the null sentinel; without children it is empty.
   */
  lemma UnexposedShape(n: Node, env: Env, sw: SwitchState)
    requires WellFormed(n) && n.kind == UnexposedExpr
    ensures |n.children| == 0 ==> Tr(n, env, sw) == Out("", sw)
    ensures |n.children| > 0 ==>
              var e := Tr(n.children[|n.children| - 1], env, sw).text;
              && (n.ty.isPointer && env.util.deparentize(e) == "0" ==> Tr(n, env, sw).text == NullPtr)
              && (!(n.ty.isPointer && env.util.deparentize(e) == "0") ==> Tr(n, env, sw).text == e)
  {
  }

  // ---------------------------------------------------------------------------
  // Literals and blocks
  // ---------------------------------------------------------------------------

  /** Integer tokens lose every unsigned suffix letter. */
  lemma IntegerDropsUnsigned(n: Node)
    requires |n.tokens| > 0
    ensures 'U' !in IntegerText(n) && 'u' !in IntegerText(n)
    ensures |IntegerText(n)| == |n.tokens[0]| - Count(n.tokens[0], 'U') - Count(n.tokens[0], 'u')
  {
    var t := n.tokens[0];
    ReplaceCharRemovesAll(t, 'U', "");
    ReplaceCharKeepsOthers(RemoveChar(t, 'U'), 'u', "", 'U');
    ReplaceCharRemovesAll(RemoveChar(t, 'U'), 'u', "");
    RemoveCharLength(t, 'U');
    RemoveCharLength(RemoveChar(t, 'U'), 'u');
    RemovedCount(t, 'U', 'u');
  }

  /** Removing one letter does not change how often another occurs. */
  lemma {:induction false} RemovedCount(s: string, c: char, d: char)
    requires c != d
    ensures Count(RemoveChar(s, c), d) == Count(s, d)
  {
    if s != [] {
      RemovedCount(s[1..], c, d);
      assert RemoveChar(s, c) == (if s[0] == c then "" else [s[0]]) + RemoveChar(s[1..], c);
      CountAppend(if s[0] == c then "" else [s[0]], RemoveChar(s[1..], c), d);
    }
  }

  lemma {:induction false} CountAppend(s: string, t: string, d: char)
    ensures Count(s + t, d) == Count(s, d) + Count(t, d)
  {
    if s == [] {
      assert s + t == t;
    } else {
      assert (s + t)[0] == s[0];
      assert (s + t)[1..] == s[1..] + t;
      CountAppend(s[1..], t, d);
    }
  }

  /** Float tokens grow by two characters per `f`: each becomes `f32`. */
  lemma FloatSuffix(n: Node)
    requires |n.tokens| > 0
    ensures |FloatingText(n)| == |n.tokens[0]| + 2 * Count(n.tokens[0], 'f')
  {
    ReplaceLength(n.tokens[0], 'f', "f32");
  }

  lemma {:induction false} ReplaceLength(s: string, c: char, rep: string)
    ensures |ReplaceChar(s, c, rep)| == |s| + Count(s, c) * (|rep| - 1)
  {
    if s != [] {
      ReplaceLength(s[1..], c, rep);
    }
  }

  /** An empty or NUL character literal is written `'\0'`; any other keeps its text, quoted. */
  lemma CharacterQuoted(literal: string)
    ensures literal == "" || literal == "\0" ==> CharacterText(literal) == "'\\0'"
    ensures literal != "" && literal != "\0" ==> CharacterText(literal) == "'" + literal + "'"
  {
  }

  /** A wide string loses exactly its `L` prefix. */
  lemma StringPrefix(spelling: string)
    ensures StartsWith(spelling, "L") ==> "L" + StringText(spelling) == spelling
    ensures !StartsWith(spelling, "L") ==> StringText(spelling) == spelling
  {
  }

  // ---------------------------------------------------------------------------
  // Variable declarations (1083-1210)
  // ---------------------------------------------------------------------------

  /**
   * A number or record: `name:T`, then ` = value` when the initializer has text; inside a
   * function body it is a `let mut`.
   */
  lemma VarDeclValue(n: Node, rvKind: Kind, rvText: Option<string>, state: State, u: Utility)
    requires !n.ty.isPointer && !n.ty.isArray
    ensures VarDeclText(n, rvKind, rvText, state, u)
         == (if state == Functions then "let mut " else "")
            + (u.fixSpecialWords(n.spelling) + ":" + n.ty.rustType
               + (if rvText.Some? && rvText.value != "" then " = " + rvText.value else ""))
            + ";"
  {
  }

  /** A pointer: a literal `0` becomes the null sentinel; inside a function body it is a `let` without `mut`. */
  lemma VarDeclPointer(n: Node, rvKind: Kind, rvText: Option<string>, state: State, u: Utility)
    requires n.ty.isPointer && !n.ty.isArray
    ensures VarDeclText(n, rvKind, rvText, state, u)
         == (if state == Functions then "let " else "")
            + (u.fixSpecialWords(n.spelling) + ":" + n.ty.rustType
               + (if rvText.Some? && rvText.value != "" then " = " + (if rvText.value == "0" then NullPtr else rvText.value) else ""))
            + ";"
  {
  }

  /**
   * An array: `name:[T;N]` from the element type and the constant length. Any initializer,
   * and a size given by a type, a literal or an expression, is replaced by the
   * uninitialized value, both inside and outside function bodies: the `new T[n]` built
   * outside functions is overwritten before it is used.
   */
  lemma VarDeclArray(n: Node, rvKind: Kind, rvText: Option<string>, state: State, u: Utility)
    requires n.ty.isArray
    ensures VarDeclText(n, rvKind, rvText, state, u)
         == (if state == Functions then "let mut " else "")
            + (u.fixSpecialWords(n.spelling) + ":[" + n.ty.pointeeType + ";" + IntToString(n.ty.arraySize) + "]")
            + (if rvText.Some? && (rvText.value != "" || rvKind == TypeRef || rvKind == IntegerLiteral || rvKind == BinaryOperator)
               then " = " + Uninitialized else "")
            + ";"
  {
    ArrayDeclText(n, rvKind, rvText, state, u);
    ArrayInitValue(n.ty, rvKind, rvText, state);
  }

  /** The initializer part of an array declaration. */
  function ArrayInit(t: TypeInfo, rvKind: Kind, rvText: Option<string>, state: State): string
  {
    var rv := SizedRvalue(t, rvKind, rvText, state);
    if rv.Some? && rv.value != "" then " = " + Uninitialized else ""
  }

  lemma ArrayDeclText(n: Node, rvKind: Kind, rvText: Option<string>, state: State, u: Utility)
    requires n.ty.isArray
    ensures VarDeclText(n, rvKind, rvText, state, u)
         == (if state == Functions then "let mut " else "")
            + (u.fixSpecialWords(n.spelling) + ":[" + n.ty.pointeeType + ";" + IntToString(n.ty.arraySize) + "]")
            + ArrayInit(n.ty, rvKind, rvText, state)
            + ";"
  {
    var pre := if state == Functions then "let mut " else "";
    var decl := u.fixSpecialWords(n.spelling) + ":[" + n.ty.pointeeType + ";" + IntToString(n.ty.arraySize) + "]";
    var init := ArrayInit(n.ty, rvKind, rvText, state);
    ArrayDeclParts(n, rvKind, rvText, state, u);
    assert pre + (decl + init) == pre + decl + init;
  }

  lemma ArrayDeclParts(n: Node, rvKind: Kind, rvText: Option<string>, state: State, u: Utility)
    requires n.ty.isArray
    ensures VarDeclText(n, rvKind, rvText, state, u)
         == (if state == Functions then "let mut " else "")
            + (u.fixSpecialWords(n.spelling) + ":[" + n.ty.pointeeType + ";" + IntToString(n.ty.arraySize) + "]"
               + ArrayInit(n.ty, rvKind, rvText, state))
            + ";"
  {
  }

  lemma ArrayInitValue(t: TypeInfo, rvKind: Kind, rvText: Option<string>, state: State)
    requires t.isArray
    ensures ArrayInit(t, rvKind, rvText, state)
         == if rvText.Some? && (rvText.value != "" || rvKind == TypeRef || rvKind == IntegerLiteral || rvKind == BinaryOperator)
            then " = " + Uninitialized else ""
  {
  }

  /** A declaration's initializer is the translation of its last child. */
  lemma VarDeclInitializer(n: Node, env: Env, sw: SwitchState)
    requires WellFormed(n) && n.kind == VarDecl && |n.children| > 0
    ensures var c := n.children[|n.children| - 1];
            Tr(n, env, sw) == Out(VarDeclText(n, c.kind, Some(Tr(c, env, sw).text), env.state, env.util), Tr(c, env, sw).sw)
  {
  }
}
