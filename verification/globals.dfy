/** The global-variable table: name to (declared type, optional initializer text),
    first declaration wins. */
module Globals {
  import opened Wrappers
  import opened Diagnostics

  /** What the table stores for one name: the declared type and the initializer's text, if any. */
  datatype GlobalEntry = GlobalEntry(varType: string, init: Option<string>)

  /** The dictionary, with its insertion order made explicit: `keys` lists the names in
      the order they were inserted, which is the order the dictionary enumerates them
      since nothing is ever removed. */
  datatype GlobalTable = GlobalTable(keys: seq<string>, entries: map<string, GlobalEntry>)

  predicate Distinct(s: seq<string>) {
    forall i, j :: 0 <= i < j < |s| ==> s[i] != s[j]
  }

  /** Every key is listed exactly once and the list matches the map's domain. */
  predicate Valid(t: GlobalTable) {
    && Distinct(t.keys)
    && (forall k :: k in t.entries ==> k in t.keys)
    && (forall k :: k in t.keys ==> k in t.entries)
  }

  const Empty := GlobalTable([], map[])

  function Lookup(t: GlobalTable, name: string): Option<GlobalEntry> {
    if name in t.entries then Some(t.entries[name]) else None
  }

  /** The text begins with a double quote, that is, the initializer is a string literal. */
  predicate StartsWithQuote(s: string) {
    |s| > 0 && s[0] == '"'
  }

  /** The one type check the pass makes: an `int` initialised with a string literal. */
  predicate IsIntStringMismatch(varType: string, init: Option<string>) {
    varType == "int" && init.Some? && StartsWithQuote(init.value)
  }

  datatype Declared = Declared(table: GlobalTable, diags: seq<Diagnostic>)

  /** Declaring a global variable. A name already present leaves the table exactly as it
      was and reports the redeclaration; a fresh name is inserted at the end of the
      insertion order whatever its initializer, and only the int/string mismatch is
      reported. Other names keep their entries in every case. */
  function Declare(t: GlobalTable, name: string, varType: string, init: Option<string>): (r: Declared)
    requires Valid(t)
    ensures Valid(r.table)
    ensures name in r.table.entries
    ensures forall k :: k != name ==> Lookup(r.table, k) == Lookup(t, k)
    ensures name in t.entries ==> r.table == t && r.diags == [GlobalRedeclared(name)]
    ensures name !in t.entries ==>
              && r.table.entries[name] == GlobalEntry(varType, init)
              && r.table.keys == t.keys + [name]
              && (r.diags != [] <==> IsIntStringMismatch(varType, init))
              && (forall d :: d in r.diags ==> d == IntGetsString(name))
    ensures |r.diags| <= 1
  {
    if name in t.entries then
      Declared(t, [GlobalRedeclared(name)])
    else
      var diags := if IsIntStringMismatch(varType, init) then [IntGetsString(name)] else [];
      Declared(GlobalTable(t.keys + [name], t.entries[name := GlobalEntry(varType, init)]), diags)
  }

  /** A seq without repetitions has as many distinct elements as it has positions. */
  lemma {:induction false} DistinctCardinality(s: seq<string>)
    requires Distinct(s)
    ensures |set k | k in s| == |s|
  {
    if |s| > 0 {
      var init := s[..|s| - 1];
      assert s == init + [s[|s| - 1]];
      assert Distinct(init);
      DistinctCardinality(init);
      assert (set k | k in s) == (set k | k in init) + {s[|s| - 1]};
      assert s[|s| - 1] !in (set k | k in init);
    }
  }

  /** The table holds one entry per distinct declared name, listed once each. */
  lemma TableSize(t: GlobalTable)
    requires Valid(t)
    ensures |t.entries| == |t.keys|
  {
    assert t.entries.Keys == set k | k in t.keys;
    DistinctCardinality(t.keys);
  }
}
