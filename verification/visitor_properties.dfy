/** What one walk of the semantic pass collects, stated against the reference
    definitions read directly off the tree. */
module VisitorProperties {
  import opened Wrappers
  import opened Diagnostics
  import opened Tokens
  import opened Globals
  import opened Functions
  import opened Visitor

  // ----- token log -----

  /** The walk appends exactly the non-suppressed terminals of the tree, in document order. */
  lemma {:induction false} VisitTokenLog(n: Node, s: State)
    requires Valid(s.globals)
    ensures Visit(n, s).tokens == s.tokens + Kept(Terminals(n))
    decreases n
  {
    match n
    case Terminal(kind, lexeme, line) =>
      assert Kept([Token(kind, lexeme, line)]) == (if IsSuppressed(kind) then [] else [Token(kind, lexeme, line)]);
    case ErrorLeaf(_, _) =>
    case GlobalVarDecl(varType, name, init, children) =>
      var d := Declare(s.globals, name, varType, init);
      VisitAllTokenLog(children, s.(globals := d.table, diags := s.diags + d.diags));
    case FunctionDecl(returnType, name, params, children) =>
      VisitAllTokenLog(children, s.(diags := s.diags + DuplicateReports(s.functions, name, params)));
    case StructDecl(name, children) =>
      VisitAllTokenLog(children, s.(diags := s.diags + [StructFound(name)]));
    case Other(children) =>
      VisitAllTokenLog(children, s);
  }

  lemma {:induction false} VisitAllTokenLog(ns: seq<Node>, s: State)
    requires Valid(s.globals)
    ensures VisitAll(ns, s).tokens == s.tokens + Kept(TerminalsAll(ns))
    decreases ns
  {
    if |ns| > 0 {
      var s1 := Visit(ns[0], s);
      VisitTokenLog(ns[0], s);
      VisitAllTokenLog(ns[1..], s1);
      KeptAppend(Terminals(ns[0]), TerminalsAll(ns[1..]));
    }
  }

  /** From an empty log: a token is logged exactly when it is a terminal of the tree
      whose kind is not whitespace or a comment. */
  lemma TokenLogMembers(root: Node, t: Token)
    ensures t in Visit(root, Initial).tokens <==> t in Terminals(root) && !IsSuppressed(t.kind)
  {
    VisitTokenLog(root, Initial);
    KeptMembers(Terminals(root), t);
  }

  // ----- function list -----

  /** The walk appends one entry per function declaration, in post-order: an entry
      follows everything recorded while its body was visited. */
  lemma {:induction false} VisitFunctionList(n: Node, s: State)
    requires Valid(s.globals)
    ensures Visit(n, s).functions == s.functions + FunctionsOf(n)
    decreases n
  {
    match n
    case Terminal(_, _, _) =>
    case ErrorLeaf(_, _) =>
    case GlobalVarDecl(varType, name, init, children) =>
      var d := Declare(s.globals, name, varType, init);
      VisitAllFunctionList(children, s.(globals := d.table, diags := s.diags + d.diags));
    case FunctionDecl(returnType, name, params, children) =>
      VisitAllFunctionList(children, s.(diags := s.diags + DuplicateReports(s.functions, name, params)));
    case StructDecl(name, children) =>
      VisitAllFunctionList(children, s.(diags := s.diags + [StructFound(name)]));
    case Other(children) =>
      VisitAllFunctionList(children, s);
  }

  lemma {:induction false} VisitAllFunctionList(ns: seq<Node>, s: State)
    requires Valid(s.globals)
    ensures VisitAll(ns, s).functions == s.functions + FunctionsOfAll(ns)
    decreases ns
  {
    if |ns| > 0 {
      VisitFunctionList(ns[0], s);
      VisitAllFunctionList(ns[1..], Visit(ns[0], s));
    }
  }

  /** One entry per function-declaration node, duplicates included. */
  lemma {:induction false} FunctionsOfCount(n: Node)
    ensures |FunctionsOf(n)| == FunctionDeclCount(n)
    decreases n
  {
    match n
    case Terminal(_, _, _) =>
    case ErrorLeaf(_, _) =>
    case FunctionDecl(_, _, _, children) => FunctionsOfAllCount(children);
    case GlobalVarDecl(_, _, _, children) => FunctionsOfAllCount(children);
    case StructDecl(_, children) => FunctionsOfAllCount(children);
    case Other(children) => FunctionsOfAllCount(children);
  }

  lemma {:induction false} FunctionsOfAllCount(ns: seq<Node>)
    ensures |FunctionsOfAll(ns)| == FunctionDeclCountAll(ns)
    decreases ns
  {
    if |ns| > 0 {
      FunctionsOfCount(ns[0]);
      FunctionsOfAllCount(ns[1..]);
    }
  }

  /** The function list grows by exactly the number of function declarations visited. */
  lemma FunctionListLength(n: Node, s: State)
    requires Valid(s.globals)
    ensures |Visit(n, s).functions| == |s.functions| + FunctionDeclCount(n)
  {
    VisitFunctionList(n, s);
    FunctionsOfCount(n);
  }

  /** Visiting one function declaration: first one duplicate report per existing entry
      with the same name and parameter types, then whatever the body records, and the
      declaration's own entry last, after the entries of functions nested in its body. */
  lemma FunctionDeclStep(returnType: string, name: string, params: seq<ParameterInfo>, children: seq<Node>, s: State)
    requires Valid(s.globals)
    ensures var r := Visit(FunctionDecl(returnType, name, params, children), s);
            var clashes := |set i | 0 <= i < |s.functions| && Clashes(s.functions[i], name, params)|;
            && |s.diags| + clashes <= |r.diags|
            && (forall j :: |s.diags| <= j < |s.diags| + clashes ==> r.diags[j] == DuplicateFunction(name))
            && r.functions == s.functions + FunctionsOfAll(children) + [FunctionInfo(name, returnType, params)]
  {
    var reports := DuplicateReports(s.functions, name, params);
    var s1 := s.(diags := s.diags + reports);
    VisitAllFunctionList(children, s1);
    var r := Visit(FunctionDecl(returnType, name, params, children), s);
    assert r.diags == VisitAll(children, s1).diags;
    forall j | |s.diags| <= j < |s.diags| + |reports|
      ensures r.diags[j] == DuplicateFunction(name)
    {
      assert r.diags[j] == s1.diags[j];
      assert s1.diags[j] == reports[j - |s.diags|];
      assert reports[j - |s.diags|] in reports;
    }
  }

  /** Visiting a struct declaration: one note naming the struct, then its children are
      visited as any other sub-tree; the struct itself adds nothing to either table. */
  lemma StructDeclStep(name: string, children: seq<Node>, s: State)
    requires Valid(s.globals)
    ensures var r := Visit(StructDecl(name, children), s);
            && |s.diags| < |r.diags| && r.diags[|s.diags|] == StructFound(name)
            && r.functions == s.functions + FunctionsOfAll(children)
            && forall k :: Lookup(r.globals, k) == FirstWins(Lookup(s.globals, k), FirstDeclaration(GlobalDeclsAll(children), k))
  {
    var s1 := s.(diags := s.diags + [StructFound(name)]);
    VisitAllFunctionList(children, s1);
    forall k
      ensures Lookup(VisitAll(children, s1).globals, k) == FirstWins(Lookup(s.globals, k), FirstDeclaration(GlobalDeclsAll(children), k))
    {
      VisitAllGlobalEntry(children, s1, k);
    }
    assert s1.diags <= VisitAll(children, s1).diags;
  }

  // ----- global-variable table -----

  lemma {:induction false} FirstDeclarationAppend(a: seq<GlobalDecl>, b: seq<GlobalDecl>, name: string)
    ensures FirstDeclaration(a + b, name) == FirstWins(FirstDeclaration(a, name), FirstDeclaration(b, name))
  {
    if |a| > 0 {
      assert (a + b)[0] == a[0];
      assert (a + b)[1..] == a[1..] + b;
      FirstDeclarationAppend(a[1..], b, name);
    } else {
      assert a + b == b;
    }
  }

  /** Whatever the tree declares, the table entry of every name is its entry before the
      walk if it had one, and otherwise its earliest declaration in document order. */
  lemma {:induction false} VisitGlobalEntry(n: Node, s: State, k: string)
    requires Valid(s.globals)
    ensures Lookup(Visit(n, s).globals, k) == FirstWins(Lookup(s.globals, k), FirstDeclaration(GlobalDecls(n), k))
    decreases n
  {
    match n
    case Terminal(_, _, _) =>
    case ErrorLeaf(_, _) =>
    case GlobalVarDecl(varType, name, init, children) =>
      var d := Declare(s.globals, name, varType, init);
      var s1 := s.(globals := d.table, diags := s.diags + d.diags);
      var own := [GlobalDecl(name, GlobalEntry(varType, init))];
      VisitAllGlobalEntry(children, s1, k);
      FirstDeclarationAppend(own, GlobalDeclsAll(children), k);
      assert Lookup(d.table, k) == FirstWins(Lookup(s.globals, k), FirstDeclaration(own, k));
    case FunctionDecl(returnType, name, params, children) =>
      VisitAllGlobalEntry(children, s.(diags := s.diags + DuplicateReports(s.functions, name, params)), k);
    case StructDecl(name, children) =>
      VisitAllGlobalEntry(children, s.(diags := s.diags + [StructFound(name)]), k);
    case Other(children) =>
      VisitAllGlobalEntry(children, s, k);
  }

  lemma {:induction false} VisitAllGlobalEntry(ns: seq<Node>, s: State, k: string)
    requires Valid(s.globals)
    ensures Lookup(VisitAll(ns, s).globals, k) == FirstWins(Lookup(s.globals, k), FirstDeclaration(GlobalDeclsAll(ns), k))
    decreases ns
  {
    if |ns| > 0 {
      VisitGlobalEntry(ns[0], s, k);
      VisitAllGlobalEntry(ns[1..], Visit(ns[0], s), k);
      FirstDeclarationAppend(GlobalDecls(ns[0]), GlobalDeclsAll(ns[1..]), k);
    }
  }

  lemma {:induction false} FirstDeclarationFound(decls: seq<GlobalDecl>, k: string)
    ensures FirstDeclaration(decls, k).Some? <==> k in DeclaredNames(decls)
  {
    if |decls| > 0 {
      FirstDeclarationFound(decls[1..], k);
    }
  }

  /** After the walk, the table's names are those it had plus every name the tree declares. */
  lemma GlobalKeySet(n: Node, s: State)
    requires Valid(s.globals)
    ensures Visit(n, s).globals.entries.Keys == s.globals.entries.Keys + DeclaredNames(GlobalDecls(n))
  {
    var r := Visit(n, s);
    forall k
      ensures k in r.globals.entries <==> k in s.globals.entries || k in DeclaredNames(GlobalDecls(n))
    {
      VisitGlobalEntry(n, s, k);
      FirstDeclarationFound(GlobalDecls(n), k);
    }
  }

  /** Starting from an empty table, its size is the number of distinct names declared,
      however often each one is redeclared. */
  lemma GlobalTableSize(root: Node)
    ensures |Visit(root, Initial).globals.entries| == |DeclaredNames(GlobalDecls(root))|
    ensures |Visit(root, Initial).globals.keys| == |DeclaredNames(GlobalDecls(root))|
  {
    var t := Visit(root, Initial).globals;
    GlobalKeySet(root, Initial);
    assert t.entries.Keys == DeclaredNames(GlobalDecls(root));
    TableSize(t);
  }

  lemma {:induction false} FreshNamesAppend(a: seq<GlobalDecl>, b: seq<GlobalDecl>, seen: set<string>)
    ensures FreshNames(a + b, seen) == FreshNames(a, seen) + FreshNames(b, seen + DeclaredNames(a))
  {
    if |a| == 0 {
      assert a + b == b;
      assert seen + DeclaredNames(a) == seen;
    } else {
      var x, tail := a[0].name, a[1..];
      assert (a + b)[0] == a[0] && (a + b)[1..] == tail + b;
      if x in seen {
        FreshNamesAppend(tail, b, seen);
        assert seen + DeclaredNames(a) == seen + DeclaredNames(tail);
      } else {
        FreshNamesAppend(tail, b, seen + {x});
        assert seen + {x} + DeclaredNames(tail) == seen + DeclaredNames(a);
      }
    }
  }

  /** The insertion order, which is the order the table is reported in: names the tree
      declares are added once each, at their first declaration in document order, after
      the names already present. */
  lemma {:induction false} VisitGlobalKeys(n: Node, s: State)
    requires Valid(s.globals)
    ensures Visit(n, s).globals.keys == s.globals.keys + FreshNames(GlobalDecls(n), s.globals.entries.Keys)
    decreases n
  {
    match n
    case Terminal(_, _, _) =>
    case ErrorLeaf(_, _) =>
    case GlobalVarDecl(varType, name, init, children) =>
      var d := Declare(s.globals, name, varType, init);
      var s1 := s.(globals := d.table, diags := s.diags + d.diags);
      VisitAllGlobalKeys(children, s1);
      DeclareKeyOrder(s.globals, name, varType, init, GlobalDeclsAll(children), VisitAll(children, s1).globals.keys);
    case FunctionDecl(returnType, name, params, children) =>
      VisitAllGlobalKeys(children, s.(diags := s.diags + DuplicateReports(s.functions, name, params)));
    case StructDecl(name, children) =>
      VisitAllGlobalKeys(children, s.(diags := s.diags + [StructFound(name)]));
    case Other(children) =>
      VisitAllGlobalKeys(children, s);
  }

  /** Declaring one global and then walking on composes into the key order of the
      declaration followed by the later declarations. */
  lemma DeclareKeyOrder(t: GlobalTable, name: string, varType: string, init: Option<string>,
                        rest: seq<GlobalDecl>, k2: seq<string>)
    requires Valid(t)
    requires var d := Declare(t, name, varType, init);
             k2 == d.table.keys + FreshNames(rest, d.table.entries.Keys)
    ensures k2 == t.keys + FreshNames([GlobalDecl(name, GlobalEntry(varType, init))] + rest, t.entries.Keys)
  {
    var decls := [GlobalDecl(name, GlobalEntry(varType, init))] + rest;
    assert decls[0].name == name && decls[1..] == rest;
    var d := Declare(t, name, varType, init);
    if name !in t.entries {
      assert d.table.entries.Keys == t.entries.Keys + {name};
    }
  }

  lemma {:induction false} VisitAllGlobalKeys(ns: seq<Node>, s: State)
    requires Valid(s.globals)
    ensures VisitAll(ns, s).globals.keys == s.globals.keys + FreshNames(GlobalDeclsAll(ns), s.globals.entries.Keys)
    decreases ns
  {
    if |ns| > 0 {
      var s1 := Visit(ns[0], s);
      VisitGlobalKeys(ns[0], s);
      GlobalKeySet(ns[0], s);
      VisitAllGlobalKeys(ns[1..], s1);
      KeyOrderCompose(s.globals.keys, s1.globals.keys, VisitAll(ns[1..], s1).globals.keys,
                      GlobalDecls(ns[0]), GlobalDeclsAll(ns[1..]), s.globals.entries.Keys, s1.globals.entries.Keys);
    }
  }

  /** Key orders of two consecutive walks compose into the key order of the combined walk. */
  lemma KeyOrderCompose(k0: seq<string>, k1: seq<string>, k2: seq<string>, a: seq<GlobalDecl>, b: seq<GlobalDecl>,
                        seen: set<string>, seen1: set<string>)
    requires k1 == k0 + FreshNames(a, seen)
    requires seen1 == seen + DeclaredNames(a)
    requires k2 == k1 + FreshNames(b, seen1)
    ensures k2 == k0 + FreshNames(a + b, seen)
  {
    FreshNamesAppend(a, b, seen);
  }

  // ----- a tree without declarations -----

  /** A tree that declares nothing changes neither table and reports nothing; only the
      token log grows. */
  lemma {:induction false} NoDeclarationsNoChange(n: Node, s: State)
    requires Valid(s.globals)
    requires DeclaresNothing(n)
    ensures var r := Visit(n, s);
            r.globals == s.globals && r.functions == s.functions && r.diags == s.diags
    decreases n
  {
    match n
    case Terminal(_, _, _) =>
    case ErrorLeaf(_, _) =>
    case Other(children) => NoDeclarationsNoChangeAll(children, s);
  }

  lemma {:induction false} NoDeclarationsNoChangeAll(ns: seq<Node>, s: State)
    requires Valid(s.globals)
    requires DeclaresNothingAll(ns)
    ensures var r := VisitAll(ns, s);
            r.globals == s.globals && r.functions == s.functions && r.diags == s.diags
    decreases ns
  {
    if |ns| > 0 {
      NoDeclarationsNoChange(ns[0], s);
      NoDeclarationsNoChangeAll(ns[1..], Visit(ns[0], s));
    }
  }
}
