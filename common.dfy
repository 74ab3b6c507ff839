/** Type annotations as written in the source language (`*`, `void`, `int`,
    `uint`, `Boolean`, or any other class name) and their parser. */
module ParserCommon {

  datatype Type = Any | Void | Int | Uint | Bool | Other(name: string)

  predicate IsTypeKeyword(s: string) {
    s == "*" || s == "void" || s == "int" || s == "uint" || s == "Boolean"
  }

  /** `Type::from_str`: exact, case-sensitive keyword match; anything else is a
      class name. Parsing cannot fail (its error type is `Infallible`), so the
      result is a plain `Type`. */
  function TypeFromStr(s: string): (t: Type)
    ensures s == "*" <==> t == Any
    ensures s == "void" <==> t == Void
    ensures s == "int" <==> t == Int
    ensures s == "uint" <==> t == Uint
    ensures s == "Boolean" <==> t == Bool
    ensures t.Other? <==> !IsTypeKeyword(s)
    ensures t.Other? ==> t.name == s
  {
    match s
    case "*" => Any
    case "void" => Void
    case "int" => Int
    case "uint" => Uint
    case "Boolean" => Bool
    case _ => Other(s)
  }

  /** The source text of a type annotation: the reference inverse of `TypeFromStr`. */
  function TypeText(t: Type): string {
    match t
    case Any => "*"
    case Void => "void"
    case Int => "int"
    case Uint => "uint"
    case Bool => "Boolean"
    case Other(name) => name
  }

  /** Parsing a string and writing the type back gives the same text. */
  lemma TypeTextOfParse(s: string)
    ensures TypeText(TypeFromStr(s)) == s
  {
  }

  /** Every type is parsed back from its text, except a class name that is
      spelled like a keyword (such a `Type` is never produced by the parser). */
  lemma ParseOfTypeText(t: Type)
    ensures (t.Other? ==> !IsTypeKeyword(t.name)) <==> TypeFromStr(TypeText(t)) == t
  {
  }

  /** Distinct annotations give distinct types. */
  lemma TypeFromStrInjective(s1: string, s2: string)
    ensures TypeFromStr(s1) == TypeFromStr(s2) ==> s1 == s2
  {
    TypeTextOfParse(s1);
    TypeTextOfParse(s2);
  }
}
