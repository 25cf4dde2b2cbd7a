/**
 * The part of the TypeScript syntax tree the emitter handles, the type
 * oracle it consults, and the errors it raises.
 *
 * Every node carries an identifier, which is what the oracle's queries
 * (`getTypeName`, `isArray`, `isNumber`) and the errors refer to. A node of
 * any other kind is kept with the name the compiler's `SyntaxKind`
 * enumeration gives its kind, which is what the error messages print.
 */
module Syntax {
  import opened Wrappers

  type NodeId = nat

  /** The operator tokens the emitter knows, and any other token by its kind name. */
  datatype Token =
    | AsteriskToken | AsteriskEqualsToken | EqualsToken
    | GreaterThanToken | GreaterThanEqualsToken | LessThanToken | LessThanEqualsToken
    | MinusToken | MinusEqualsToken | PlusToken | PlusEqualsToken
    | SlashToken | SlashEqualsToken
    | ExclamationToken | MinusMinusToken | PlusPlusToken
    | OtherToken(kindName: string)

  /** How the token is spelled in TypeScript source. */
  function TokenText(t: Token): string
    requires !t.OtherToken?
  {
    match t
    case AsteriskToken => "*"
    case AsteriskEqualsToken => "*="
    case EqualsToken => "="
    case GreaterThanToken => ">"
    case GreaterThanEqualsToken => ">="
    case LessThanToken => "<"
    case LessThanEqualsToken => "<="
    case MinusToken => "-"
    case MinusEqualsToken => "-="
    case PlusToken => "+"
    case PlusEqualsToken => "+="
    case SlashToken => "/"
    case SlashEqualsToken => "/="
    case ExclamationToken => "!"
    case MinusMinusToken => "--"
    case PlusPlusToken => "++"
  }

  /**
   * The token's kind name as `nodeKindString` prints it: the enumeration is
   * scanned in declaration order, so the first name of a value wins.
   */
  function NodeKindName(t: Token): string {
    match t
    case AsteriskToken => "AsteriskToken"
    case AsteriskEqualsToken => "AsteriskEqualsToken"
    case EqualsToken => "EqualsToken"
    case GreaterThanToken => "GreaterThanToken"
    case GreaterThanEqualsToken => "GreaterThanEqualsToken"
    case LessThanToken => "LessThanToken"
    case LessThanEqualsToken => "LessThanEqualsToken"
    case MinusToken => "MinusToken"
    case MinusEqualsToken => "MinusEqualsToken"
    case PlusToken => "PlusToken"
    case PlusEqualsToken => "PlusEqualsToken"
    case SlashToken => "SlashToken"
    case SlashEqualsToken => "SlashEqualsToken"
    case ExclamationToken => "ExclamationToken"
    case MinusMinusToken => "MinusMinusToken"
    case PlusPlusToken => "PlusPlusToken"
    case OtherToken(name) => name
  }

  /**
   * The token's kind name as `ts.SyntaxKind[kind]` gives it: the reverse
   * entry of an enumeration value is written by each of its names in
   * turn, so the last alias wins. `FirstAssignment`, `FirstBinaryOperator`
   * and `FirstCompoundAssignment` are declared after the tokens they alias.
   */
  function EnumKindName(t: Token): string {
    match t
    case EqualsToken => "FirstAssignment"
    case LessThanToken => "FirstBinaryOperator"
    case PlusEqualsToken => "FirstCompoundAssignment"
    case _ => NodeKindName(t)
  }

  /**
   * Among the tokens the model names, the two ways the emitter names a
   * token kind differ exactly on the three that later enumeration members
   * alias. An `OtherToken` carries one name for both.
   */
  lemma KindNameAliases(t: Token)
    ensures EnumKindName(t) != NodeKindName(t) <==> (t.EqualsToken? || t.LessThanToken? || t.PlusEqualsToken?)
    ensures t.OtherToken? ==> EnumKindName(t) == NodeKindName(t) == t.kindName
  {
  }

  datatype Expression =
    | ArrayLiteral(id: NodeId, elements: seq<Expression>)
    | Binary(id: NodeId, left: Expression, operator: Token, right: Expression)
    | Call(id: NodeId, callee: Expression, arguments: seq<Expression>)
    | ElementAccess(id: NodeId, target: Expression, argument: Expression)
    | Identifier(id: NodeId, text: string)
    | NumericLiteral(id: NodeId, text: string)
    | ObjectLiteral(id: NodeId, properties: seq<Property>)
    | Parenthesized(id: NodeId, inner: Expression)
    | PrefixUnary(id: NodeId, operator: Token, operand: Expression)
    | PostfixUnary(id: NodeId, operand: Expression, operator: Token)
    | PropertyAccess(id: NodeId, target: Expression, member: string)
    | StringLiteral(id: NodeId, text: string)
    | Template(id: NodeId, head: string, spans: seq<TemplateSpan>)
    | BooleanLiteral(id: NodeId, value: bool)
    | OtherExpression(id: NodeId, kindName: string)

  /** `${expression}` followed by the literal text up to the next one. */
  datatype TemplateSpan = TemplateSpan(expression: Expression, literal: string)

  /** An object literal member: `name: value`, `name`, or any other kind. */
  datatype Property =
    | PropertyAssignment(id: NodeId, name: string, initializer: Expression)
    | ShorthandPropertyAssignment(id: NodeId, name: string)
    | OtherProperty(id: NodeId, name: string, kindName: string)

  datatype Parameter = Parameter(id: NodeId, name: string)

  datatype VariableDeclaration = VariableDeclaration(id: NodeId, name: string, initializer: Option<Expression>)

  datatype ForInitializer = DeclarationList(declarations: seq<VariableDeclaration>) | InitialExpression(expression: Expression)

  datatype Statement =
    | FunctionDeclaration(id: NodeId, name: Option<string>, parameters: seq<Parameter>,
                          returnType: Option<NodeId>, body: Option<seq<Statement>>)
    | ImportDeclaration(id: NodeId, moduleSpecifier: string)
    | Block(id: NodeId, statements: seq<Statement>)
    | ExpressionStatement(id: NodeId, expression: Expression)
    | ForStatement(id: NodeId, initializer: Option<ForInitializer>, condition: Option<Expression>,
                   incrementor: Option<Expression>, statement: Statement)
    | ReturnStatement(id: NodeId, returned: Option<Expression>)
    | VariableStatement(id: NodeId, declarations: seq<VariableDeclaration>)
    | OtherStatement(id: NodeId, kindName: string)

  /** `nodeKindString` of a statement. */
  function StatementKindName(s: Statement): string {
    match s
    case FunctionDeclaration(_, _, _, _, _) => "FunctionDeclaration"
    case ImportDeclaration(_, _) => "ImportDeclaration"
    case Block(_, _) => "Block"
    case ExpressionStatement(_, _) => "ExpressionStatement"
    case ForStatement(_, _, _, _, _) => "ForStatement"
    case ReturnStatement(_, _) => "ReturnStatement"
    case VariableStatement(_, _) => "VariableStatement"
    case OtherStatement(_, name) => name
  }

  /**
   * What the emitter asks the type checker and the module loader:
   * `getTypeName`, `isArray` and `isNumber` of a node, and the statements
   * of the file an import specifier names (`pushSourceFile`).
   */
  datatype Env = Env(
    typeName: NodeId -> string,
    isArray: NodeId -> bool,
    isNumber: NodeId -> bool,
    sourceFile: string -> seq<Statement>)

  /**
   * `EmitError` at a node with its message, or an import chain deeper than
   * the model follows (the source recurses without bound on a cycle).
   */
  datatype EmitFailure = EmitError(node: NodeId, message: string) | ImportDepthExceeded(moduleSpecifier: string)
}
