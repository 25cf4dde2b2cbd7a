/**
 * Expression emission (`emitExpression` and the functions it dispatches
 * to). An expression only ever calls `append` on the current builder, and
 * at least once, so its emission is the single text those appends write
 * (see `StringBuilders.MergeAppends`), or the error that aborted it.
 */
module EmitExpressions {
  import opened Wrappers
  import opened JsStrings
  import opened Utils
  import opened Pieces
  import opened Syntax

  /** The tokens `emitBinaryExpression` translates. */
  predicate IsBinaryOperator(t: Token) {
    !t.OtherToken? && !t.ExclamationToken? && !t.MinusMinusToken? && !t.PlusPlusToken?
  }

  /**
   * Lines 446-498: the Go operator of a binary expression is the
   * TypeScript operator with a space on each side; other tokens have none.
   */
  function BinaryOperatorText(t: Token): (r: Option<string>)
    ensures r.Some? <==> IsBinaryOperator(t)
    ensures r.Some? ==> r.value == " " + TokenText(t) + " "
  {
    match t
    case AsteriskToken => Some(" * ")
    case AsteriskEqualsToken => Some(" *= ")
    case EqualsToken => Some(" = ")
    case GreaterThanToken => Some(" > ")
    case GreaterThanEqualsToken => Some(" >= ")
    case LessThanToken => Some(" < ")
    case LessThanEqualsToken => Some(" <= ")
    case MinusToken => Some(" - ")
    case MinusEqualsToken => Some(" -= ")
    case PlusToken => Some(" + ")
    case PlusEqualsToken => Some(" += ")
    case SlashToken => Some(" / ")
    case SlashEqualsToken => Some(" /= ")
    case _ => None
  }

  /** Lines 633-649: `!`, `-`, `--` and `++` are written as they are spelled. */
  function PrefixOperatorText(t: Token): (r: Option<string>)
    ensures r.Some? <==> t.ExclamationToken? || t.MinusToken? || t.MinusMinusToken? || t.PlusPlusToken?
    ensures r.Some? ==> r.value == TokenText(t)
  {
    match t
    case ExclamationToken => Some("!")
    case MinusToken => Some("-")
    case MinusMinusToken => Some("--")
    case PlusPlusToken => Some("++")
    case _ => None
  }

  /** Lines 669-677: `--` and `++` are written as they are spelled. */
  function PostfixOperatorText(t: Token): (r: Option<string>)
    ensures r.Some? <==> t.MinusMinusToken? || t.PlusPlusToken?
    ensures r.Some? ==> r.value == TokenText(t)
  {
    match t
    case MinusMinusToken => Some("--")
    case PlusPlusToken => Some("++")
    case _ => None
  }

  /** The error a dispatch miss raises, naming the kind and the emit function. */
  function UnhandledKind(id: NodeId, kindName: string, emitter: string): EmitFailure {
    EmitError(id, "Failed to emit " + kindName + " in " + emitter + ".")
  }

  /** Lines 499-501: the error for a token that is not a binary operator, named by `nodeKindString`. */
  function BinaryOperatorError(id: NodeId, operator: Token): EmitFailure {
    EmitError(id, "Failed to emit " + NodeKindName(operator) + " for BinaryExpression in emitBinaryExpression.")
  }

  /** Lines 511-518: a string on the left and anything else on the right. */
  predicate ConvertsRight(env: Env, left: Expression, right: Expression) {
    env.typeName(left.id) == "string" && env.typeName(right.id) != "string"
  }

  /** `emitExpression` (lines 327-420): dispatch on the kind of the node. */
  function EmitExpression(env: Env, e: Expression): Result<string, EmitFailure>
    decreases e, 1
  {
    match e
    case ArrayLiteral(id, elements) => EmitArrayLiteral(env, id, elements)
    case Binary(id, left, operator, right) => EmitBinary(env, id, left, operator, right)
    case Call(id, callee, arguments) => EmitCall(env, id, callee, arguments)
    case ElementAccess(id, target, argument) => EmitElementAccess(env, id, target, argument)
    case Identifier(_, text) =>
      // Lines 720-732.
      Success(text)
    case NumericLiteral(_, text) =>
      // Lines 734-739.
      Success(text)
    case ObjectLiteral(id, properties) => EmitObjectLiteral(env, id, properties)
    case Parenthesized(id, inner) => EmitParenthesized(env, id, inner)
    case PrefixUnary(id, operator, operand) => EmitPrefixUnary(env, id, operator, operand)
    case PostfixUnary(id, operand, operator) => EmitPostfixUnary(env, id, operand, operator)
    case PropertyAccess(id, target, member) => EmitPropertyAccess(env, id, target, member)
    case StringLiteral(_, text) =>
      // Lines 791-796.
      Success("\"" + text + "\"")
    case Template(id, head, spans) => EmitTemplate(env, id, head, spans)
    case BooleanLiteral(_, value) =>
      // Lines 561-570.
      Success(if value then "true" else "false")
    case OtherExpression(id, kindName) =>
      Failure(UnhandledKind(id, kindName, "emitExpression"))
  }

  /** Lines 422-438: the type, then the elements between braces. */
  function EmitArrayLiteral(env: Env, id: NodeId, elements: seq<Expression>): Result<string, EmitFailure>
    decreases ArrayLiteral(id, elements), 0
  {
    var values :- Collect(seq(|elements|, i requires 0 <= i < |elements| => EmitExpression(env, elements[i])));
    Success(env.typeName(id) + "{" + Concat(TrailingSeparated(values, ", ")) + "}")
  }

  /** Lines 440-525: left operand, operator, right operand. */
  function EmitBinary(env: Env, id: NodeId, left: Expression, operator: Token, right: Expression): Result<string, EmitFailure>
    decreases Binary(id, left, operator, right), 0
  {
    var l :- EmitExpression(env, left);
    var op :- match BinaryOperatorText(operator)
      case None => Failure(BinaryOperatorError(id, operator))
      case Some(text) => Success(text);
    var r :- EmitExpression(env, right);
    Success(l + op + if ConvertsRight(env, left, right) then "fmt.Sprintf(\"%v\", " + r + ")" else r)
  }

  /** Lines 572-617: the callee, then the arguments between parentheses. */
  function EmitCall(env: Env, id: NodeId, callee: Expression, arguments: seq<Expression>): Result<string, EmitFailure>
    decreases Call(id, callee, arguments), 0
  {
    var c :- EmitExpression(env, callee);
    var values :- Collect(seq(|arguments|, i requires 0 <= i < |arguments| => EmitExpression(env, arguments[i])));
    Success(c + "(" + Concat(TrailingSeparated(values, ", ")) + ")")
  }

  /** Lines 619-627: the target, then the index between brackets. */
  function EmitElementAccess(env: Env, id: NodeId, target: Expression, argument: Expression): Result<string, EmitFailure>
    decreases ElementAccess(id, target, argument), 0
  {
    var t :- EmitExpression(env, target);
    var a :- EmitExpression(env, argument);
    Success(t + "[" + a + "]")
  }

  /** The value of an object literal member, or the error for other member kinds. */
  function PropertyValue(env: Env, p: Property): Result<string, EmitFailure>
    decreases p, 0
  {
    match p
    case PropertyAssignment(_, _, initializer) => EmitExpression(env, initializer)
    case ShorthandPropertyAssignment(_, name) => Success(name)
    case OtherProperty(id, _, kindName) =>
      Failure(UnhandledKind(id, kindName, "emitObjectLiteralExpression"))
  }

  /** Lines 741-780: keys are written as they are, values after ` = `. */
  function EmitObjectLiteral(env: Env, id: NodeId, properties: seq<Property>): Result<string, EmitFailure>
    decreases ObjectLiteral(id, properties), 0
  {
    var values :- Collect(seq(|properties|, i requires 0 <= i < |properties| => PropertyValue(env, properties[i])));
    var members := seq(|properties|, i requires 0 <= i < |properties| => "." + properties[i].name + " = " + values[i]);
    Success("{" + Concat(Bracketed(members, ", ", " ", " ")) + "}")
  }

  /** Lines 782-789. */
  function EmitParenthesized(env: Env, id: NodeId, inner: Expression): Result<string, EmitFailure>
    decreases Parenthesized(id, inner), 0
  {
    var x :- EmitExpression(env, inner);
    Success("(" + x + ")")
  }

  /** Lines 629-661: the operator is checked before the operand is emitted. */
  function EmitPrefixUnary(env: Env, id: NodeId, operator: Token, operand: Expression): Result<string, EmitFailure>
    decreases PrefixUnary(id, operator, operand), 0
  {
    var op :- match PrefixOperatorText(operator)
      case None => Failure(UnhandledKind(id, EnumKindName(operator), "emitPrefixUnaryExpression"))
      case Some(text) => Success(text);
    var x :- EmitExpression(env, operand);
    Success(op + x)
  }

  /** Lines 663-687: the operand is emitted before the operator is checked. */
  function EmitPostfixUnary(env: Env, id: NodeId, operand: Expression, operator: Token): Result<string, EmitFailure>
    decreases PostfixUnary(id, operand, operator), 0
  {
    var x :- EmitExpression(env, operand);
    var op :- match PostfixOperatorText(operator)
      case None => Failure(UnhandledKind(id, EnumKindName(operator), "emitPostfixUnaryExpression"))
      case Some(text) => Success(text);
    Success(x + op)
  }

  /** Lines 689-714: `len` for an array's `length`, otherwise the exported member. */
  function EmitPropertyAccess(env: Env, id: NodeId, target: Expression, member: string): Result<string, EmitFailure>
    decreases PropertyAccess(id, target, member), 0
  {
    var t :- EmitExpression(env, target);
    if env.isArray(target.id) && member == "length" then Success("len(" + t + ")")
    else Success(t + "." + FirstLetterToUpper(member))
  }

  /** Lines 527-559: a `fmt.Sprintf` call with a `%s` verb per span. */
  function EmitTemplate(env: Env, id: NodeId, head: string, spans: seq<TemplateSpan>): Result<string, EmitFailure>
    decreases Template(id, head, spans), 0
  {
    var format := head + Concat(Verbs(seq(|spans|, i requires 0 <= i < |spans| => spans[i].literal)));
    var values :- Collect(seq(|spans|, i requires 0 <= i < |spans| => EmitExpression(env, spans[i].expression)));
    Success("fmt.Sprintf(\"" + format + "\"" + Concat(ArgumentTail(values)) + ")")
  }
}

/**
 * What the expression emitter produces for each kind of list, operator and
 * access: the texts the source's loops and `append` calls build, stated as
 * `join`s, and the order in which errors are raised.
 */
module EmitExpressionProperties {
  import opened Wrappers
  import opened JsStrings
  import opened Utils
  import opened Pieces
  import opened Syntax
  import opened EmitExpressions

  /** The element texts of a list whose elements all emit. */
  predicate EmitsAll(env: Env, es: seq<Expression>, values: seq<string>) {
    |values| == |es| && forall i :: 0 <= i < |es| ==> EmitExpression(env, es[i]) == Success(values[i])
  }

  /**
   * Lines 422-438 and 572-617: array elements and call arguments are the
   * elements' texts joined with `, `.
   */
  lemma ListEmission(env: Env, id: NodeId, callee: Expression, c: string, es: seq<Expression>, values: seq<string>)
    requires EmitsAll(env, es, values)
    ensures EmitArrayLiteral(env, id, es) == Success(env.typeName(id) + "{" + Join(values, ", ") + "}")
    ensures EmitExpression(env, callee) == Success(c) ==>
      EmitCall(env, id, callee, es) == Success(c + "(" + Join(values, ", ") + ")")
  {
    CollectValues(seq(|es|, i requires 0 <= i < |es| => EmitExpression(env, es[i])), values);
    TrailingSeparatedJoin(values, ", ");
  }

  /** One unfolding of `EmitBinary` when both operands emit. */
  lemma BinaryParts(env: Env, id: NodeId, left: Expression, operator: Token, right: Expression, l: string, r: string)
    requires EmitExpression(env, left) == Success(l) && EmitExpression(env, right) == Success(r)
    requires IsBinaryOperator(operator)
    ensures EmitBinary(env, id, left, operator, right) == Success(l + BinaryOperatorText(operator).value +
        if ConvertsRight(env, left, right) then "fmt.Sprintf(\"%v\", " + r + ")" else r)
  {
  }

  /**
   * Lines 440-525: the left operand, the operator with a space on each
   * side, and the right operand, which is wrapped in `fmt.Sprintf("%v", …)`
   * exactly when the left operand is a string and the right one is not.
   */
  lemma BinaryEmission(env: Env, id: NodeId, left: Expression, operator: Token, right: Expression, l: string, r: string)
    requires EmitExpression(env, left) == Success(l) && EmitExpression(env, right) == Success(r)
    requires IsBinaryOperator(operator)
    ensures EmitBinary(env, id, left, operator, right) == Success(l + " " + TokenText(operator) + " " +
        if env.typeName(left.id) == "string" && env.typeName(right.id) != "string"
        then "fmt.Sprintf(\"%v\", " + r + ")" else r)
  {
    BinaryParts(env, id, left, operator, right, l, r);
    SpacedOperator(l, TokenText(operator), if ConvertsRight(env, left, right) then "fmt.Sprintf(\"%v\", " + r + ")" else r);
  }

  lemma SpacedOperator(l: string, t: string, x: string)
    ensures l + (" " + t + " ") + x == l + " " + t + " " + x
  {
  }

  /** Lines 440-444: a failing left operand fails the expression first. */
  lemma BinaryLeftError(env: Env, id: NodeId, left: Expression, operator: Token, right: Expression)
    requires EmitExpression(env, left).Failure?
    ensures EmitBinary(env, id, left, operator, right) == Failure(EmitExpression(env, left).error)
  {
  }

  /** Lines 499-508: then a token that is no binary operator, named by its kind. */
  lemma BinaryOperatorMiss(env: Env, id: NodeId, left: Expression, operator: Token, right: Expression)
    requires EmitExpression(env, left).Success? && !IsBinaryOperator(operator)
    ensures EmitBinary(env, id, left, operator, right) == Failure(EmitError(id,
      "Failed to emit " + NodeKindName(operator) + " for BinaryExpression in emitBinaryExpression."))
  {
  }

  /** Lines 511-524: and only then a failing right operand. */
  lemma BinaryRightError(env: Env, id: NodeId, left: Expression, operator: Token, right: Expression)
    requires EmitExpression(env, left).Success? && IsBinaryOperator(operator) && EmitExpression(env, right).Failure?
    ensures EmitBinary(env, id, left, operator, right) == Failure(EmitExpression(env, right).error)
  {
  }

  /**
   * Lines 527-559: the head and one `%s` plus literal text per span form
   * the format string, and the span expressions follow as arguments in
   * order. Without `%` in the literal texts the format has exactly as many
   * verbs as there are arguments.
   */
  lemma TemplateEmission(env: Env, id: NodeId, head: string, spans: seq<TemplateSpan>, values: seq<string>)
    requires EmitsAll(env, seq(|spans|, i requires 0 <= i < |spans| => spans[i].expression), values)
    ensures var literals := seq(|spans|, i requires 0 <= i < |spans| => spans[i].literal);
      var format := head + Concat(Verbs(literals));
      && EmitTemplate(env, id, head, spans) ==
         Success("fmt.Sprintf(\"" + format + "\"" + (if spans == [] then "" else ", " + Join(values, ", ")) + ")")
      && ('%' !in head && (forall i :: 0 <= i < |spans| ==> '%' !in spans[i].literal) ==>
          CountChar(format, '%') == |values|)
  {
    var literals := seq(|spans|, i requires 0 <= i < |spans| => spans[i].literal);
    CollectValues(seq(|spans|, i requires 0 <= i < |spans| => EmitExpression(env, spans[i].expression)), values);
    ArgumentTailJoin(values);
    if '%' !in head && (forall i :: 0 <= i < |spans| ==> '%' !in spans[i].literal) {
      VerbCount(head, literals);
    }
  }

  /**
   * Lines 689-714: `.length` of an array is `len(…)`; any other member is
   * written after a dot with its first letter upper-cased, so that it names
   * the exported Go field or method.
   */
  lemma PropertyAccessEmission(env: Env, id: NodeId, target: Expression, member: string, t: string)
    requires EmitExpression(env, target) == Success(t)
    ensures env.isArray(target.id) && member == "length" ==>
      EmitPropertyAccess(env, id, target, member) == Success("len(" + t + ")")
    ensures !(env.isArray(target.id) && member == "length") ==>
      EmitPropertyAccess(env, id, target, member) == Success(t + "." + FirstLetterToUpper(member))
    ensures !(env.isArray(target.id) && member == "length") && member != "" ==>
      !IsAsciiLower(EmitPropertyAccess(env, id, target, member).value[|t| + 1])
  {
    if !(env.isArray(target.id) && member == "length") && member != "" {
      var r := t + "." + FirstLetterToUpper(member);
      assert r[|t| + 1] == FirstLetterToUpper(member)[0];
    }
  }

  /**
   * Lines 741-780: an empty literal is `{}`; otherwise the members
   * `.key = value`, keys as written, are joined with `, ` between `{ ` and
   * ` }`. A member of another kind fails once the members before it have
   * been emitted.
   */
  lemma ObjectLiteralEmission(env: Env, id: NodeId, properties: seq<Property>, values: seq<string>)
    requires |values| == |properties|
    requires forall i :: 0 <= i < |properties| ==> PropertyValue(env, properties[i]) == Success(values[i])
    ensures properties == [] ==> EmitObjectLiteral(env, id, properties) == Success("{}")
    ensures properties != [] ==>
      EmitObjectLiteral(env, id, properties) == Success("{ " + Join(
        seq(|properties|, i requires 0 <= i < |properties| => "." + properties[i].name + " = " + values[i]), ", ") + " }")
  {
    CollectValues(seq(|properties|, i requires 0 <= i < |properties| => PropertyValue(env, properties[i])), values);
    BracedMembers(seq(|properties|, i requires 0 <= i < |properties| => "." + properties[i].name + " = " + values[i]));
  }

  /** The members of an object literal between braces: `{}`, or `{ ` and ` }` around their join. */
  lemma BracedMembers(members: seq<string>)
    ensures members == [] ==> "{" + Concat(Bracketed(members, ", ", " ", " ")) + "}" == "{}"
    ensures members != [] ==> "{" + Concat(Bracketed(members, ", ", " ", " ")) + "}" == "{ " + Join(members, ", ") + " }"
  {
    BracketedJoin(members, ", ", " ", " ");
    if members == [] {
      assert "{" + "" + "}" == "{}";
    } else {
      var j := Join(members, ", ");
      assert "{" + (" " + j + " ") + "}" == "{ " + j + " }";
    }
  }

  /** A member that is neither an assignment nor a shorthand makes the literal fail with its kind. */
  lemma ObjectLiteralOtherMember(env: Env, id: NodeId, properties: seq<Property>, k: nat)
    requires k < |properties| && properties[k].OtherProperty?
    requires forall i :: 0 <= i < k ==> PropertyValue(env, properties[i]).Success?
    ensures EmitObjectLiteral(env, id, properties) ==
      Failure(UnhandledKind(properties[k].id, properties[k].kindName, "emitObjectLiteralExpression"))
  {
    var rs := seq(|properties|, i requires 0 <= i < |properties| => PropertyValue(env, properties[i]));
    CollectFirstFailure(rs, k);
  }

  /**
   * Lines 629-661: a prefix operator is written before its operand, and an
   * unknown one is reported before the operand is emitted.
   */
  lemma PrefixUnaryEmission(env: Env, id: NodeId, operator: Token, operand: Expression)
    ensures PrefixOperatorText(operator).None? ==>
      EmitPrefixUnary(env, id, operator, operand) ==
      Failure(UnhandledKind(id, EnumKindName(operator), "emitPrefixUnaryExpression"))
    ensures PrefixOperatorText(operator).Some? && EmitExpression(env, operand).Success? ==>
      EmitPrefixUnary(env, id, operator, operand) == Success(TokenText(operator) + EmitExpression(env, operand).value)
  {
  }

  /**
   * Lines 663-687: a postfix operator is written after its operand, and an
   * unknown one is an error naming its kind.
   */
  lemma PostfixUnaryEmission(env: Env, id: NodeId, operand: Expression, operator: Token, x: string)
    requires EmitExpression(env, operand) == Success(x)
    ensures PostfixOperatorText(operator).None? ==>
      EmitPostfixUnary(env, id, operand, operator) ==
      Failure(UnhandledKind(id, EnumKindName(operator), "emitPostfixUnaryExpression"))
    ensures PostfixOperatorText(operator).Some? ==>
      EmitPostfixUnary(env, id, operand, operator) == Success(x + TokenText(operator))
  {
  }

  /** Lines 667-668: a failing operand is reported before the operator is looked at. */
  lemma PostfixOperandFirst(env: Env, id: NodeId, operand: Expression, operator: Token)
    requires EmitExpression(env, operand).Failure?
    ensures EmitPostfixUnary(env, id, operand, operator) == Failure(EmitExpression(env, operand).error)
  {
  }

  /**
   * Lines 619-627: the index follows its target between brackets; the
   * target is emitted first, so its error comes before the index's.
   */
  lemma ElementAccessEmission(env: Env, id: NodeId, target: Expression, argument: Expression)
    ensures EmitExpression(env, target).Failure? ==>
      EmitElementAccess(env, id, target, argument) == Failure(EmitExpression(env, target).error)
    ensures EmitExpression(env, target).Success? && EmitExpression(env, argument).Failure? ==>
      EmitElementAccess(env, id, target, argument) == Failure(EmitExpression(env, argument).error)
    ensures EmitExpression(env, target).Success? && EmitExpression(env, argument).Success? ==>
      EmitElementAccess(env, id, target, argument) ==
      Success(EmitExpression(env, target).value + "[" + EmitExpression(env, argument).value + "]")
  {
  }

  /** Lines 782-789: a parenthesized expression keeps its parentheses, and fails as its inner expression does. */
  lemma ParenthesizedEmission(env: Env, id: NodeId, inner: Expression)
    ensures EmitExpression(env, inner).Failure? ==>
      EmitParenthesized(env, id, inner) == Failure(EmitExpression(env, inner).error)
    ensures EmitExpression(env, inner).Success? ==>
      EmitParenthesized(env, id, inner) == Success("(" + EmitExpression(env, inner).value + ")")
  {
  }

  /** Lines 411-418: a kind `emitExpression` does not handle is an error naming that kind. */
  lemma ExpressionDispatchMiss(env: Env, id: NodeId, kindName: string)
    ensures EmitExpression(env, OtherExpression(id, kindName)) ==
      Failure(UnhandledKind(id, kindName, "emitExpression"))
  {
  }
}
