/** The semantic-collection pass: one depth-first walk over the parse tree that threads
    the token log, the global-variable table, the function list and the diagnostics. */
module Visitor {
  import opened Wrappers
  import opened Diagnostics
  import opened Tokens
  import opened Globals
  import opened Functions

  /** The parse tree as the pass sees it. Each declaration node carries the pieces the
      pass extracts from it (type and name text, the initializer's text, the parameter
      list) next to its children, which are every sub-tree in source order, tokens
      included. */
  datatype Node =
    | Terminal(kind: string, lexeme: string, line: int)
    | ErrorLeaf(lexeme: string, line: int)
    | GlobalVarDecl(varType: string, name: string, init: Option<string>, children: seq<Node>)
    | FunctionDecl(returnType: string, name: string, params: seq<ParameterInfo>, children: seq<Node>)
    | StructDecl(name: string, children: seq<Node>)
    | Other(children: seq<Node>)

  datatype State = State(
    tokens: seq<Token>,
    globals: GlobalTable,
    functions: seq<FunctionInfo>,
    diags: seq<Diagnostic>)

  const Initial := State([], Empty, [], [])

  /** Visiting one node. The table stays well formed, and the token log, the function
      list and the diagnostics only ever grow at the end. */
  function Visit(n: Node, s: State): (r: State)
    requires Valid(s.globals)
    ensures Valid(r.globals)
    ensures s.tokens <= r.tokens && s.functions <= r.functions && s.diags <= r.diags
    decreases n
  {
    match n
    case Terminal(kind, lexeme, line) =>
      s.(tokens := Record(s.tokens, kind, lexeme, line))
    case ErrorLeaf(_, _) =>
      s
    case GlobalVarDecl(varType, name, init, children) =>
      var d := Declare(s.globals, name, varType, init);
      VisitAll(children, s.(globals := d.table, diags := s.diags + d.diags))
    case FunctionDecl(returnType, name, params, children) =>
      var reports := DuplicateReports(s.functions, name, params);
      var afterBody := VisitAll(children, s.(diags := s.diags + reports));
      afterBody.(functions := afterBody.functions + [FunctionInfo(name, returnType, params)])
    case StructDecl(name, children) =>
      VisitAll(children, s.(diags := s.diags + [StructFound(name)]))
    case Other(children) =>
      VisitAll(children, s)
  }

  /** Visiting siblings left to right, each starting from the state the previous one left. */
  function VisitAll(ns: seq<Node>, s: State): (r: State)
    requires Valid(s.globals)
    ensures Valid(r.globals)
    ensures s.tokens <= r.tokens && s.functions <= r.functions && s.diags <= r.diags
    decreases ns
  {
    if |ns| == 0 then s else VisitAll(ns[1..], Visit(ns[0], s))
  }

  // ---------------------------------------------------------------------------
  // Reference definitions: what the walk collects, read directly off the tree.
  // ---------------------------------------------------------------------------

  /** Every terminal of the tree as a token, in document order. */
  function Terminals(n: Node): seq<Token>
    decreases n
  {
    match n
    case Terminal(kind, lexeme, line) => [Token(kind, lexeme, line)]
    case ErrorLeaf(_, _) => []
    case _ => TerminalsAll(n.children)
  }

  function TerminalsAll(ns: seq<Node>): seq<Token>
    decreases ns
  {
    if |ns| == 0 then [] else Terminals(ns[0]) + TerminalsAll(ns[1..])
  }

  /** The function declarations of the tree in post-order: a declaration comes after
      every declaration nested in its body. */
  function FunctionsOf(n: Node): seq<FunctionInfo>
    decreases n
  {
    match n
    case Terminal(_, _, _) => []
    case ErrorLeaf(_, _) => []
    case FunctionDecl(returnType, name, params, children) =>
      FunctionsOfAll(children) + [FunctionInfo(name, returnType, params)]
    case _ => FunctionsOfAll(n.children)
  }

  function FunctionsOfAll(ns: seq<Node>): seq<FunctionInfo>
    decreases ns
  {
    if |ns| == 0 then [] else FunctionsOf(ns[0]) + FunctionsOfAll(ns[1..])
  }

  /** How many function-declaration nodes the tree holds. */
  function FunctionDeclCount(n: Node): nat
    decreases n
  {
    match n
    case Terminal(_, _, _) => 0
    case ErrorLeaf(_, _) => 0
    case FunctionDecl(_, _, _, children) => 1 + FunctionDeclCountAll(children)
    case _ => FunctionDeclCountAll(n.children)
  }

  function FunctionDeclCountAll(ns: seq<Node>): nat
    decreases ns
  {
    if |ns| == 0 then 0 else FunctionDeclCount(ns[0]) + FunctionDeclCountAll(ns[1..])
  }

  /** One global declaration as written in the tree. */
  datatype GlobalDecl = GlobalDecl(name: string, entry: GlobalEntry)

  /** The global declarations of the tree in document order (a declaration before
      anything nested under it). */
  function GlobalDecls(n: Node): seq<GlobalDecl>
    decreases n
  {
    match n
    case Terminal(_, _, _) => []
    case ErrorLeaf(_, _) => []
    case GlobalVarDecl(varType, name, init, children) =>
      [GlobalDecl(name, GlobalEntry(varType, init))] + GlobalDeclsAll(children)
    case _ => GlobalDeclsAll(n.children)
  }

  function GlobalDeclsAll(ns: seq<Node>): seq<GlobalDecl>
    decreases ns
  {
    if |ns| == 0 then [] else GlobalDecls(ns[0]) + GlobalDeclsAll(ns[1..])
  }

  /** The earliest declaration of `name` among `decls`, if there is one. */
  function FirstDeclaration(decls: seq<GlobalDecl>, name: string): Option<GlobalEntry> {
    if |decls| == 0 then None
    else if decls[0].name == name then Some(decls[0].entry)
    else FirstDeclaration(decls[1..], name)
  }

  /** First writer wins: an earlier entry, when there is one, hides a later one. */
  function FirstWins(earlier: Option<GlobalEntry>, later: Option<GlobalEntry>): Option<GlobalEntry> {
    if earlier.Some? then earlier else later
  }

  function DeclaredNames(decls: seq<GlobalDecl>): set<string> {
    if |decls| == 0 then {} else {decls[0].name} + DeclaredNames(decls[1..])
  }

  /** The names of `decls` not in `seen`, each once, in order of first appearance. */
  function FreshNames(decls: seq<GlobalDecl>, seen: set<string>): seq<string> {
    if |decls| == 0 then []
    else if decls[0].name in seen then FreshNames(decls[1..], seen)
    else [decls[0].name] + FreshNames(decls[1..], seen + {decls[0].name})
  }

  /** The tree declares nothing: no global, no function and no struct. */
  predicate DeclaresNothing(n: Node)
    decreases n
  {
    match n
    case Terminal(_, _, _) => true
    case ErrorLeaf(_, _) => true
    case Other(children) => DeclaresNothingAll(children)
    case _ => false
  }

  predicate DeclaresNothingAll(ns: seq<Node>)
    decreases ns
  {
    |ns| == 0 || (DeclaresNothing(ns[0]) && DeclaresNothingAll(ns[1..]))
  }
}
