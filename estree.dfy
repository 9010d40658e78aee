/**
 * The part of the ESTree syntax tree that the analysis engine inspects: the
 * top-level statements of a module, where only import declarations and
 * named export declarations are told apart (ECMA-262, section 16.2.2
 * "Imports" and section 16.2.3 "Exports"). Every other statement is
 * `OtherStatement`.
 */
module Estree {
  import opened Wrappers

  /** The binding target of a variable declarator. */
  datatype Pattern = Identifier(name: string) | ObjectPattern | ArrayPattern

  datatype VariableDeclarator = VariableDeclarator(id: Pattern)

  /** The declaration wrapped by `export`. */
  datatype Declaration =
    | FunctionDeclaration(id: string)
    | ClassDeclaration(id: string)
    | VariableDeclaration(declarations: seq<VariableDeclarator>)

  /** `{ imported as local }`, `local` (default) or `* as local`. */
  datatype ModuleSpecifier =
    | ImportSpecifier(imported: string, local: string)
    | ImportDefaultSpecifier(local: string)
    | ImportNamespaceSpecifier(local: string)

  datatype Node =
    | ImportDeclaration(source: string, specifiers: seq<ModuleSpecifier>)
    | ExportNamedDeclaration(declaration: Option<Declaration>)
    | OtherStatement

  /** What the parser returns for one file. */
  datatype Program = Program(body: seq<Node>)
}
