/** The three text reports the pass produces after the walk: one line per token, one
    line per global variable, three lines per function. Only the lines are modelled,
    not the files they are written to. */
module Reports {
  import opened Wrappers
  import opened Decimal
  import opened Tokens
  import opened Globals
  import opened Functions

  // ----- tokens -----

  /** `<kind, lexeme, line>` */
  function TokenLine(t: Token): string {
    "<" + t.kind + ", " + t.lexeme + ", " + IntToString(t.line) + ">"
  }

  /** One line per logged token, in log order. */
  function TokenLines(ts: seq<Token>): seq<string> {
    seq(|ts|, i requires 0 <= i < |ts| => TokenLine(ts[i]))
  }

  /** Index of the last space in `s`, if any. */
  function LastSpace(s: string): (r: Option<nat>)
    ensures r.Some? ==> r.value < |s| && s[r.value] == ' '
  {
    if |s| == 0 then None
    else if s[|s| - 1] == ' ' then Some(|s| - 1)
    else LastSpace(s[..|s| - 1])
  }

  /** Reads the line number back from a token line: the numeral between the last space
      and the closing `>`. */
  function LineNumberOf(line: string): Option<int> {
    if |line| == 0 || line[|line| - 1] != '>' then None
    else match LastSpace(line[..|line| - 1])
      case None => None
      case Some(i) => ParseInt(line[i + 1..|line| - 1])
  }

  lemma {:induction false} LastSpaceSkipsTail(head: string, tail: string)
    requires |head| > 0 && head[|head| - 1] == ' '
    requires forall i :: 0 <= i < |tail| ==> tail[i] != ' '
    ensures LastSpace(head + tail) == Some(|head| - 1)
  {
    if |tail| == 0 {
      assert head + tail == head;
    } else {
      var s := head + tail;
      assert s[..|s| - 1] == head + tail[..|tail| - 1];
      LastSpaceSkipsTail(head, tail[..|tail| - 1]);
    }
  }

  /** The line number survives in every token line, whatever the kind and lexeme hold
      (spaces and commas included): it can always be read back. */
  lemma TokenLineRecoversLine(t: Token)
    ensures LineNumberOf(TokenLine(t)) == Some(t.line)
  {
    var head := "<" + t.kind + ", " + t.lexeme + ", ";
    var digits := IntToString(t.line);
    var line := TokenLine(t);
    assert line == head + digits + ">";
    assert line[..|line| - 1] == head + digits;
    IntToStringShape(t.line);
    LastSpaceSkipsTail(head, digits);
    assert line[|head|..|line| - 1] == digits;
    IntRoundTrip(t.line);
  }

  // ----- global variables -----

  /** `type name = init`, or `type name ` (with the trailing space) without an initializer. */
  function GlobalLine(name: string, e: GlobalEntry): string {
    e.varType + " " + name + " " + (if e.init.None? then "" else "= " + e.init.value)
  }

  /** The declared type and the name always lead the line; the line stops right after
      them exactly when there is no initializer, and otherwise continues with `= ` and
      the initializer's text. */
  lemma GlobalLineShape(name: string, e: GlobalEntry)
    ensures var head := e.varType + " " + name + " ";
            var line := GlobalLine(name, e);
            && head <= line
            && (line == head <==> e.init.None?)
            && (e.init.Some? ==> line[|head|..] == "= " + e.init.value)
  {
    var head := e.varType + " " + name + " ";
    if e.init.Some? {
      assert GlobalLine(name, e) == head + ("= " + e.init.value);
    }
  }

  function GlobalLinesOf(keys: seq<string>, entries: map<string, GlobalEntry>): (r: seq<string>)
    requires forall k :: k in keys ==> k in entries
    ensures |r| == |keys|
    ensures forall i :: 0 <= i < |keys| ==> r[i] == GlobalLine(keys[i], entries[keys[i]])
  {
    if |keys| == 0 then []
    else GlobalLinesOf(keys[..|keys| - 1], entries) + [GlobalLine(keys[|keys| - 1], entries[keys[|keys| - 1]])]
  }

  /** One line per table entry, in the table's insertion order. */
  function GlobalLines(t: GlobalTable): (r: seq<string>)
    requires Valid(t)
    ensures |r| == |t.entries| == |t.keys|
    ensures forall i :: 0 <= i < |t.keys| ==> r[i] == GlobalLine(t.keys[i], t.entries[t.keys[i]])
  {
    TableSize(t);
    GlobalLinesOf(t.keys, t.entries)
  }

  // ----- functions -----

  const Separator := "--------------"

  /** `Funcție: name (return type)` */
  function FunctionHeader(f: FunctionInfo): string {
    "Funcție: " + f.funcName + " (return " + f.returnType + ")"
  }

  const ParamCountLabel := " - Parametri: "

  /** ` - Parametri: count` */
  function ParamCountLine(f: FunctionInfo): string {
    ParamCountLabel + IntToString(|f.parameters|)
  }

  /** Exactly three lines per recorded function, duplicates included, in list order:
      the header, the parameter count and the separator. */
  function FunctionLines(fs: seq<FunctionInfo>): (r: seq<string>)
    ensures |r| == 3 * |fs|
    ensures forall i :: 0 <= i < |fs| ==>
              r[3 * i] == FunctionHeader(fs[i]) && r[3 * i + 1] == ParamCountLine(fs[i]) && r[3 * i + 2] == Separator
  {
    if |fs| == 0 then []
    else
      var f := fs[|fs| - 1];
      FunctionLines(fs[..|fs| - 1]) + [FunctionHeader(f), ParamCountLine(f), Separator]
  }

  /** The parameter count can be read back from its line. */
  lemma ParamCountRecoverable(f: FunctionInfo)
    ensures ParamCountLabel <= ParamCountLine(f)
    ensures ParseInt(ParamCountLine(f)[|ParamCountLabel|..]) == Some(|f.parameters|)
  {
    var line := ParamCountLine(f);
    assert line[|ParamCountLabel|..] == IntToString(|f.parameters|);
    IntRoundTrip(|f.parameters|);
  }
}
