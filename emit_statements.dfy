/**
 * Statement emission: the top-level dispatcher (`emitTopLevelStatement`),
 * the block-level dispatcher (`emitBlockLevelStatement`) and the statement
 * kinds they hand on to, plus `emitPreamble` and `emitSourceFile`.
 *
 * A statement writes lines, indents and unindents, so its emission is the
 * sequence of builder calls it makes (`StringBuilders.Op`), with each run
 * of consecutive `append` calls written as one append of their
 * concatenation (`StringBuilders.MergeAppends`).
 */
module EmitStatements {
  import opened Wrappers
  import opened JsStrings
  import opened Pieces
  import opened Syntax
  import opened StringBuilders
  import opened EmitExpressions

  /** The calls of each part, one part after the other. */
  function Flatten(parts: seq<seq<Op>>): seq<Op>
    decreases |parts|
  {
    if parts == [] then [] else parts[0] + Flatten(parts[1..])
  }

  /**
   * Lines 184-208: one declaration of `emitVariableDeclarationList`. With
   * an initializer it is `name := value`, the value wrapped in a conversion
   * to the declared type when that type is numeric; without one it is
   * `var name type`.
   */
  function EmitDeclaration(env: Env, d: VariableDeclaration): Result<string, EmitFailure> {
    match d.initializer
    case Some(initializer) =>
      var value :- EmitExpression(env, initializer);
      Success(d.name + " := " + if env.isNumber(d.id) then env.typeName(d.id) + "(" + value + ")" else value)
    case None =>
      Success("var " + d.name + " " + env.typeName(d.id))
  }

  /** Lines 177-209: the declarations one after the other, with nothing in between. */
  function EmitDeclarationList(env: Env, declarations: seq<VariableDeclaration>): Result<string, EmitFailure> {
    var texts :- Collect(seq(|declarations|, i requires 0 <= i < |declarations| => EmitDeclaration(env, declarations[i])));
    Success(Concat(texts))
  }

  /** An optional expression of a `for` header: its text, or nothing. */
  function EmitOptional(env: Env, e: Option<Expression>): Result<string, EmitFailure> {
    match e
    case None => Success("")
    case Some(x) => EmitExpression(env, x)
  }

  /** The initializer of a `for` header: a declaration list, an expression or nothing. */
  function EmitForInitializer(env: Env, initializer: Option<ForInitializer>): Result<string, EmitFailure> {
    match initializer
    case None => Success("")
    case Some(DeclarationList(declarations)) => EmitDeclarationList(env, declarations)
    case Some(InitialExpression(e)) => EmitExpression(env, e)
  }

  /** `emitBlockLevelStatement` (lines 223-269) and the statement kinds it handles. */
  function EmitStatement(env: Env, s: Statement): Result<seq<Op>, EmitFailure>
    decreases s
  {
    match s
    case Block(_, statements) => EmitBlock(env, statements)
    case ExpressionStatement(_, expression) =>
      // Lines 271-277.
      var text :- EmitExpression(env, expression);
      Success([Append(text), AppendLine("")])
    case ForStatement(_, initializer, condition, incrementor, statement) =>
      // Lines 279-312: the body is written right after the header.
      var init :- EmitForInitializer(env, initializer);
      var cond :- EmitOptional(env, condition);
      var incr :- EmitOptional(env, incrementor);
      var body :- EmitStatement(env, statement);
      Success([Append("for " + init + "; " + cond + "; " + incr + " ")] + body + [AppendLine("")])
    case ReturnStatement(_, returned) =>
      // Lines 314-325.
      (match returned
       case Some(e) =>
         var text :- EmitExpression(env, e);
         Success([Append("return " + text), AppendLine("")])
       case None => Success([AppendLine("return")]))
    case VariableStatement(_, declarations) =>
      // Lines 152-170: no append at all for an empty list.
      var text :- EmitDeclarationList(env, declarations);
      Success((if declarations == [] then [] else [Append(text)]) + [AppendLine("")])
    case _ =>
      Failure(UnhandledKind(s.id, StatementKindName(s), "emitBlockLevelStatement"))
  }

  /**
   * `emitBlock` (lines 211-221): `{` on its own line, the statements one
   * level deeper, then `}` left open for what follows.
   */
  function EmitBlock(env: Env, statements: seq<Statement>): Result<seq<Op>, EmitFailure>
    decreases statements
  {
    var parts :- Collect(seq(|statements|, i requires 0 <= i < |statements| => EmitStatement(env, statements[i])));
    Success([AppendLine("{"), Indent] + Flatten(parts) + [Unindent, Append("}")])
  }

  /** A parameter as `name type`. */
  function ParameterText(env: Env, p: Parameter): string {
    p.name + " " + env.typeName(p.id)
  }

  /**
   * `emitFunctionDeclaration` (lines 75-130): the header, the body block and
   * two line ends. The name, the return type and the body are checked in
   * this order.
   */
  function EmitFunctionDeclaration(env: Env, id: NodeId, name: Option<string>, parameters: seq<Parameter>,
                                   returnType: Option<NodeId>, body: Option<seq<Statement>>): Result<seq<Op>, EmitFailure>
  {
    if name.None? then Failure(EmitError(id, "Expected function name to be defined."))
    else
      var parameterTexts := seq(|parameters|, i requires 0 <= i < |parameters| => ParameterText(env, parameters[i]));
      var signature := "func " + name.value + "(" + Concat(Bracketed(parameterTexts, ", ", "", "")) + ")";
      if returnType.None? then Failure(EmitError(id, "Expected function return type to be defined."))
      else
        var result := env.typeName(returnType.value);
        var header := signature + (if result != "void" then " " + result else "") + " ";
        if body.None? then Failure(EmitError(id, "Cannot emit FunctionDeclaration with undefined body."))
        else
          var block :- EmitBlock(env, body.value);
          Success([Append(header)] + block + [AppendLine(""), AppendLine("")])
  }

  /**
   * `emitTopLevelStatement` (lines 39-73): functions and imports; an import
   * emits the statements of the file it names in place (lines 132-146).
   * `fuel` bounds the depth of nested imports.
   */
  function EmitTopLevel(env: Env, s: Statement, fuel: nat): Result<seq<Op>, EmitFailure>
    decreases fuel, 0
  {
    match s
    case FunctionDeclaration(id, name, parameters, returnType, body) =>
      EmitFunctionDeclaration(env, id, name, parameters, returnType, body)
    case ImportDeclaration(_, moduleSpecifier) =>
      if fuel == 0 then Failure(ImportDepthExceeded(moduleSpecifier))
      else EmitSourceFile(env, env.sourceFile(moduleSpecifier), fuel - 1)
    case _ =>
      Failure(UnhandledKind(s.id, StatementKindName(s), "emitTopLevelStatement"))
  }

  /** `emitSourceFile` (lines 33-37): the top-level statements in order. */
  function EmitSourceFile(env: Env, statements: seq<Statement>, fuel: nat): Result<seq<Op>, EmitFailure>
    decreases fuel, 1
  {
    var parts :- Collect(seq(|statements|, i requires 0 <= i < |statements| => EmitTopLevel(env, statements[i], fuel)));
    Success(Flatten(parts))
  }

  /** `emitPreamble` (lines 23-31): the package clause and the imports of every program. */
  function Preamble(): seq<Op> {
    [AppendLine("package main"), AppendLine(""), AppendLine("import ("), AppendLine("  \"fmt\""),
     AppendLine("  \"ts2go/console\""), AppendLine(")"), AppendLine("")]
  }

  /** `emit` (lines 8-21) up to rendering: the preamble, then the entry file. */
  function EmitProgram(env: Env, entry: seq<Statement>, fuel: nat): Result<seq<Op>, EmitFailure> {
    var body :- EmitSourceFile(env, entry, fuel);
    Success(Preamble() + body)
  }
}

/**
 * What statement emission guarantees: every indent is undone before the
 * statement ends and no call ever throws, errors come from the first
 * statement that fails, each dispatcher rejects the kinds it does not
 * handle, and a function declaration has the Go shape.
 */
module EmitStatementProperties {
  import opened Wrappers
  import opened JsStrings
  import opened Pieces
  import opened Syntax
  import opened StringBuilders
  import opened EmitExpressions
  import opened EmitStatements

  /** From any level that is not negative, the calls stay at or above zero and end where they began. */
  predicate Balanced(level: int, ops: seq<Op>) {
    Keeps(level, ops) && Net(ops) == 0
  }

  lemma {:induction false} FlattenBalanced(parts: seq<seq<Op>>, level: int)
    requires level >= 0 && forall i :: 0 <= i < |parts| ==> Balanced(level, parts[i])
    ensures Balanced(level, Flatten(parts))
    decreases |parts|
  {
    if parts == [] {
      assert Keeps(level, []);
    } else {
      FlattenBalanced(parts[1..], level);
      KeepsConcat(level, parts[0], Flatten(parts[1..]));
      NetConcat(parts[0], Flatten(parts[1..]));
    }
  }

  /** Calls that never indent are balanced. */
  lemma FlatBalanced(level: int, ops: seq<Op>)
    requires level >= 0 && forall i :: 0 <= i < |ops| ==> !ops[i].Indent? && !ops[i].Unindent?
    ensures Balanced(level, ops)
  {
    KeepsFlat(level, ops);
  }

  /** `a + b + c` is balanced when `b` is and `a`, `c` do not indent. */
  lemma FramedBalanced(level: int, a: seq<Op>, b: seq<Op>, c: seq<Op>)
    requires level >= 0 && Balanced(level, b)
    requires forall i :: 0 <= i < |a| ==> !a[i].Indent? && !a[i].Unindent?
    requires forall i :: 0 <= i < |c| ==> !c[i].Indent? && !c[i].Unindent?
    ensures Balanced(level, a + b + c)
  {
    FlatBalanced(level, a);
    FlatBalanced(level, c);
    KeepsConcat(level, a, b);
    NetConcat(a, b);
    KeepsConcat(level, a + b, c);
    NetConcat(a + b, c);
  }

  /**
   * Lines 211-325: a block-level statement leaves the indentation where it
   * found it and never unindents below the level it started at, so its
   * calls cannot make `"\t".repeat` throw.
   */
  lemma {:induction false} StatementBalanced(env: Env, s: Statement, level: int)
    requires level >= 0 && EmitStatement(env, s).Success?
    ensures Balanced(level, EmitStatement(env, s).value)
    decreases s
  {
    var ops := EmitStatement(env, s).value;
    match s
    case Block(_, statements) =>
      BlockBalanced(env, statements, level);
    case ForStatement(_, initializer, condition, incrementor, statement) =>
      StatementBalanced(env, statement, level);
      var body := EmitStatement(env, statement).value;
      var init := EmitForInitializer(env, initializer).value;
      var cond := EmitOptional(env, condition).value;
      var incr := EmitOptional(env, incrementor).value;
      assert ops == [Append("for " + init + "; " + cond + "; " + incr + " ")] + body + [AppendLine("")];
      FramedBalanced(level, [Append("for " + init + "; " + cond + "; " + incr + " ")], body, [AppendLine("")]);
    case _ =>
      FlatBalanced(level, ops);
  }

  /** Lines 211-221: the statements sit one level deeper, and the block ends at its own level. */
  lemma {:induction false} BlockBalanced(env: Env, statements: seq<Statement>, level: int)
    requires level >= 0 && EmitBlock(env, statements).Success?
    ensures Balanced(level, EmitBlock(env, statements).value)
    decreases statements
  {
    var rs := seq(|statements|, i requires 0 <= i < |statements| => EmitStatement(env, statements[i]));
    var parts := Collect(rs).value;
    forall i | 0 <= i < |parts|
      ensures Balanced(level + 1, parts[i])
    {
      assert rs[i] == EmitStatement(env, statements[i]);
      StatementBalanced(env, statements[i], level + 1);
    }
    FlattenBalanced(parts, level + 1);
    var inner := Flatten(parts);
    var open: seq<Op> := [AppendLine("{"), Indent];
    var close: seq<Op> := [Unindent, Append("}")];
    assert Keeps(level, open) && Net(open) == 1 by {
      assert open[1..] == [Indent] && [Indent][1..] == [];
    }
    assert Keeps(level + 1, close) && Net(close) == -1 by {
      assert close[1..] == [Append("}")] && [Append("}")][1..] == [];
    }
    KeepsConcat(level, open, inner);
    NetConcat(open, inner);
    KeepsConcat(level, open + inner, close);
    NetConcat(open + inner, close);
  }

  /** Lines 75-130: a function declaration is balanced. */
  lemma FunctionBalanced(env: Env, id: NodeId, name: Option<string>, parameters: seq<Parameter>,
                         returnType: Option<NodeId>, body: Option<seq<Statement>>, level: int)
    requires level >= 0 && EmitFunctionDeclaration(env, id, name, parameters, returnType, body).Success?
    ensures Balanced(level, EmitFunctionDeclaration(env, id, name, parameters, returnType, body).value)
  {
    var block := EmitBlock(env, body.value).value;
    BlockBalanced(env, body.value, level);
    var ops := EmitFunctionDeclaration(env, id, name, parameters, returnType, body).value;
    var header :| ops == [Append(header)] + block + [AppendLine(""), AppendLine("")];
    FramedBalanced(level, [Append(header)], block, [AppendLine(""), AppendLine("")]);
  }

  /** Lines 33-73 and 132-146: a source file, imported ones included, is balanced. */
  lemma {:induction false} SourceFileBalanced(env: Env, statements: seq<Statement>, fuel: nat, level: int)
    requires level >= 0 && EmitSourceFile(env, statements, fuel).Success?
    ensures Balanced(level, EmitSourceFile(env, statements, fuel).value)
    decreases fuel, 1
  {
    var rs := seq(|statements|, i requires 0 <= i < |statements| => EmitTopLevel(env, statements[i], fuel));
    var parts := Collect(rs).value;
    forall i | 0 <= i < |parts|
      ensures Balanced(level, parts[i])
    {
      assert rs[i] == EmitTopLevel(env, statements[i], fuel);
      TopLevelBalanced(env, statements[i], fuel, level);
    }
    FlattenBalanced(parts, level);
  }

  lemma {:induction false} TopLevelBalanced(env: Env, s: Statement, fuel: nat, level: int)
    requires level >= 0 && EmitTopLevel(env, s, fuel).Success?
    ensures Balanced(level, EmitTopLevel(env, s, fuel).value)
    decreases fuel, 0
  {
    match s
    case FunctionDeclaration(id, name, parameters, returnType, body) =>
      FunctionBalanced(env, id, name, parameters, returnType, body, level);
    case ImportDeclaration(_, moduleSpecifier) =>
      SourceFileBalanced(env, env.sourceFile(moduleSpecifier), fuel - 1, level);
  }

  /**
   * Lines 8-21: replaying a whole program on a new builder never throws,
   * and the indentation is back at zero at the end.
   */
  lemma ProgramNeverThrows(env: Env, entry: seq<Statement>, fuel: nat)
    requires EmitProgram(env, entry, fuel).Success?
    ensures Replay(Fresh, EmitProgram(env, entry, fuel).value).Some?
    ensures Replay(Fresh, EmitProgram(env, entry, fuel).value).value.indentLevel == 0
  {
    var body := EmitSourceFile(env, entry, fuel).value;
    SourceFileBalanced(env, entry, fuel, 0);
    FramedBalanced(0, Preamble(), body, []);
    assert Preamble() + body + [] == Preamble() + body;
    KeepsNeverFails(Fresh, Preamble() + body);
  }

  /** Lines 211-221: a block fails with the error of its first failing statement. */
  lemma BlockFirstError(env: Env, statements: seq<Statement>, k: nat)
    requires k < |statements| && EmitStatement(env, statements[k]).Failure?
    requires forall i :: 0 <= i < k ==> EmitStatement(env, statements[i]).Success?
    ensures EmitBlock(env, statements) == Failure(EmitStatement(env, statements[k]).error)
  {
    CollectFirstFailure(seq(|statements|, i requires 0 <= i < |statements| => EmitStatement(env, statements[i])), k);
  }

  /** Lines 33-37: a source file fails with the error of its first failing statement. */
  lemma SourceFileFirstError(env: Env, statements: seq<Statement>, fuel: nat, k: nat)
    requires k < |statements| && EmitTopLevel(env, statements[k], fuel).Failure?
    requires forall i :: 0 <= i < k ==> EmitTopLevel(env, statements[i], fuel).Success?
    ensures EmitSourceFile(env, statements, fuel) == Failure(EmitTopLevel(env, statements[k], fuel).error)
  {
    CollectFirstFailure(seq(|statements|, i requires 0 <= i < |statements| => EmitTopLevel(env, statements[i], fuel)), k);
  }

  /**
   * Lines 64-71 and 260-267: a statement of a kind the dispatcher does not
   * handle is an error naming its kind and the dispatcher. At the top level
   * only functions and imports are handled; in a block only blocks,
   * expression statements, `for`, `return` and variable statements.
   */
  lemma DispatchMisses(env: Env, s: Statement, fuel: nat)
    ensures !s.FunctionDeclaration? && !s.ImportDeclaration? ==>
      EmitTopLevel(env, s, fuel) == Failure(UnhandledKind(s.id, StatementKindName(s), "emitTopLevelStatement"))
    ensures s.FunctionDeclaration? || s.ImportDeclaration? || s.OtherStatement? ==>
      EmitStatement(env, s) == Failure(UnhandledKind(s.id, StatementKindName(s), "emitBlockLevelStatement"))
  {
  }

  /**
   * An import chain that leads back to the importing file never ends in
   * the source; in the model it fails at the depth bound, whatever the bound.
   */
  lemma {:induction false} SelfImportFails(env: Env, id: NodeId, moduleSpecifier: string, fuel: nat)
    requires env.sourceFile(moduleSpecifier) == [ImportDeclaration(id, moduleSpecifier)]
    ensures EmitTopLevel(env, ImportDeclaration(id, moduleSpecifier), fuel) == Failure(ImportDepthExceeded(moduleSpecifier))
    decreases fuel
  {
    if fuel > 0 {
      var f: nat := fuel - 1;
      SelfImportFails(env, id, moduleSpecifier, f);
      CollectFirstFailure(seq(1, i requires 0 <= i < 1 => EmitTopLevel(env, env.sourceFile(moduleSpecifier)[i], f)), 0);
    }
  }

  /**
   * Lines 75-130: `func name(p1 t1, p2 t2) ret {`, with the return type
   * left out when it is `void`, then the block and two line ends.
   */
  lemma FunctionDeclarationEmission(env: Env, id: NodeId, name: string, parameters: seq<Parameter>,
                                    returnType: NodeId, body: seq<Statement>, block: seq<Op>)
    requires EmitBlock(env, body) == Success(block)
    ensures var result := env.typeName(returnType);
      EmitFunctionDeclaration(env, id, Some(name), parameters, Some(returnType), Some(body)) ==
      Success([Append("func " + name + "(" +
        Join(seq(|parameters|, i requires 0 <= i < |parameters| => parameters[i].name + " " + env.typeName(parameters[i].id)), ", ") +
        ")" + (if result != "void" then " " + result else "") + " ")] + block + [AppendLine(""), AppendLine("")])
  {
    var texts := seq(|parameters|, i requires 0 <= i < |parameters| => ParameterText(env, parameters[i]));
    assert texts == seq(|parameters|, i requires 0 <= i < |parameters| => parameters[i].name + " " + env.typeName(parameters[i].id));
    BracketedJoin(texts, ", ", "", "");
    assert Concat(Bracketed(texts, ", ", "", "")) == Join(texts, ", ") by {
      if texts != [] {
        assert "" + Join(texts, ", ") + "" == Join(texts, ", ");
      }
    }
  }

  /** Lines 79-125: a missing name, return type or body is an error, checked in that order. */
  lemma FunctionDeclarationErrors(env: Env, id: NodeId, name: Option<string>, parameters: seq<Parameter>,
                                  returnType: Option<NodeId>, body: Option<seq<Statement>>)
    ensures name.None? ==>
      EmitFunctionDeclaration(env, id, name, parameters, returnType, body) ==
      Failure(EmitError(id, "Expected function name to be defined."))
    ensures name.Some? && returnType.None? ==>
      EmitFunctionDeclaration(env, id, name, parameters, returnType, body) ==
      Failure(EmitError(id, "Expected function return type to be defined."))
    ensures name.Some? && returnType.Some? && body.None? ==>
      EmitFunctionDeclaration(env, id, name, parameters, returnType, body) ==
      Failure(EmitError(id, "Cannot emit FunctionDeclaration with undefined body."))
  {
  }

  /**
   * Lines 152-209: the declarations of a variable statement are written one
   * after the other on one line, with no separator between them.
   */
  lemma VariableStatementEmission(env: Env, id: NodeId, declarations: seq<VariableDeclaration>, texts: seq<string>)
    requires |texts| == |declarations|
    requires forall i :: 0 <= i < |declarations| ==> EmitDeclaration(env, declarations[i]) == Success(texts[i])
    ensures EmitStatement(env, VariableStatement(id, declarations)) ==
      Success((if declarations == [] then [] else [Append(Concat(texts))]) + [AppendLine("")])
  {
    CollectValues(seq(|declarations|, i requires 0 <= i < |declarations| => EmitDeclaration(env, declarations[i])), texts);
  }

  /**
   * Lines 184-208: `name := value`, with the value converted to the
   * declared type exactly when `isNumber` holds, or `var name type`.
   */
  lemma DeclarationEmission(env: Env, d: VariableDeclaration, value: string)
    requires d.initializer.Some? ==> EmitExpression(env, d.initializer.value) == Success(value)
    ensures d.initializer.Some? && env.isNumber(d.id) ==>
      EmitDeclaration(env, d) == Success(d.name + " := " + env.typeName(d.id) + "(" + value + ")")
    ensures d.initializer.Some? && !env.isNumber(d.id) ==>
      EmitDeclaration(env, d) == Success(d.name + " := " + value)
    ensures d.initializer.None? ==> EmitDeclaration(env, d) == Success("var " + d.name + " " + env.typeName(d.id))
  {
    if d.initializer.Some? && env.isNumber(d.id) {
      var t := env.typeName(d.id);
      assert d.name + " := " + (t + "(" + value + ")") == d.name + " := " + t + "(" + value + ")";
    }
  }

  /**
   * Lines 279-312: `for init; cond; incr ` on the current line, then the
   * body's calls, then a line end; an absent part is written as nothing,
   * and a declaration list as `emitVariableDeclarationList` writes it.
   */
  lemma ForStatementEmission(env: Env, id: NodeId, initializer: Option<ForInitializer>, condition: Option<Expression>,
                             incrementor: Option<Expression>, statement: Statement,
                             init: string, cond: string, incr: string, body: seq<Op>)
    requires EmitForInitializer(env, initializer) == Success(init)
    requires EmitOptional(env, condition) == Success(cond)
    requires EmitOptional(env, incrementor) == Success(incr)
    requires EmitStatement(env, statement) == Success(body)
    ensures EmitStatement(env, ForStatement(id, initializer, condition, incrementor, statement)) ==
      Success([Append("for " + init + "; " + cond + "; " + incr + " ")] + body + [AppendLine("")])
    ensures initializer.None? ==> init == ""
    ensures condition.None? ==> cond == ""
    ensures incrementor.None? ==> incr == ""
    ensures initializer.Some? && initializer.value.DeclarationList? ==>
      EmitDeclarationList(env, initializer.value.declarations) == Success(init)
  {
  }

  /**
   * Lines 271-277 and 314-325: an expression statement and a `return`
   * each write their text and end the line; a bare `return` is one line.
   */
  lemma SimpleStatementEmission(env: Env, id: NodeId, e: Expression, text: string)
    requires EmitExpression(env, e) == Success(text)
    ensures EmitStatement(env, ExpressionStatement(id, e)) == Success([Append(text), AppendLine("")])
    ensures EmitStatement(env, ReturnStatement(id, Some(e))) == Success([Append("return " + text), AppendLine("")])
    ensures EmitStatement(env, ReturnStatement(id, None)) == Success([AppendLine("return")])
  {
  }
}
