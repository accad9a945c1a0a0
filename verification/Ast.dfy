/** Literals and expressions, without their source spans. */
module Ast {

  /** A literal, by its sort and its printed form; the unit literal has a constructor of its own. */
  datatype Literal = Unit | Lit(sort: string, text: string)

  datatype Expr = ELit(lit: Literal) | EVar(name: string) | ECall(head: string, args: seq<Expr>)

  function LitText(lit: Literal): string
  {
    match lit
    case Unit => "()"
    case Lit(_, text) => text
  }
}
