/** The abstract syntax tree handed to code generation, with the two small
    conversions defined beside it: visibility keywords and the
    expression-to-string conversion used by constant folding. */
module Ast {
  import opened Base
  import opened ParserCommon

  /** Errors of the AST conversions. */
  datatype AstError = UnknownVisibility(text: string) | CannotConvertToString

  datatype Visibility = Public | Protected | Private

  datatype Operator = Add | Sub | Mul | Div

  datatype Expression =
    | Integer(ival: int32)
    | String(sval: string)
    | Bool(bval: bool)
    | Variable(name: string)
    | BinaryOperation(lhs: Expression, operator: Operator, rhs: Expression)

  /** The only statement form: `var name: varType = value;`. */
  datatype Statement = VarDecl(name: string, varType: Type, value: Expression)

  datatype Argument = Argument(name: string, valueType: Type)

  datatype Function = Function(
    name: string,
    visibility: Visibility,
    arguments: seq<Argument>,
    returnType: Type,
    block: seq<Statement>)

  datatype ClassMember = ClassMember(
    name: string,
    visibility: Option<Visibility>,
    ty: Type,
    initExpr: Option<Expression>)

  datatype Class = Class(
    name: string,
    visibility: Visibility,
    functions: seq<Function>,
    members: seq<ClassMember>)

  datatype Package = Package(name: Option<string>, classes: seq<Class>)

  /** The number of expression nodes in `e`. */
  function Size(e: Expression): nat {
    match e
    case BinaryOperation(l, _, r) => 1 + Size(l) + Size(r)
    case _ => 1
  }

  function VisibilityText(v: Visibility): string {
    match v
    case Public => "public"
    case Protected => "protected"
    case Private => "private"
  }

  /** `Visibility::from_str`: the three keywords, case-sensitively; any other
      text is reported back in the error. */
  function VisibilityFromStr(s: string): (r: Result<Visibility, AstError>)
    ensures r.Ok? <==> (s == "public" || s == "protected" || s == "private")
    ensures r.Ok? ==> VisibilityText(r.value) == s
    ensures r.Err? ==> r.error == UnknownVisibility(s)
  {
    match s
    case "public" => Ok(Public)
    case "protected" => Ok(Protected)
    case "private" => Ok(Private)
    case _ => Err(UnknownVisibility(s))
  }

  /** Every visibility is read back from its keyword. */
  lemma VisibilityRoundTrip(v: Visibility)
    ensures VisibilityFromStr(VisibilityText(v)) == Ok(v)
  {
  }

  /** `TryFrom<&Expression> for Cow<String>`: integer literals become their
      decimal text, string literals their own text, everything else fails. */
  function ExpressionToString(e: Expression): (r: Result<string, AstError>)
    ensures r.Ok? <==> (e.Integer? || e.String?)
    ensures e.String? ==> r == Ok(e.sval)
    ensures e.Integer? ==> r.Ok? && ParseInt(r.value) == Some(e.ival as int) && CanonicalInt(r.value)
    ensures r.Err? ==> r.error == CannotConvertToString
  {
    match e
    case Integer(v) =>
      IntToStringRoundTrip(v);
      IntToStringCanonical(v);
      Ok(IntToString(v))
    case String(v) => Ok(v)
    case _ => Err(CannotConvertToString)
  }
}
