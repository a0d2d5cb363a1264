/** The token log: one entry per terminal the walk meets, whitespace and comments excepted. */
module Tokens {

  /** One log entry: the lexer's symbolic name for the token, its text and its source line. */
  datatype Token = Token(kind: string, lexeme: string, line: int)

  /** The token kinds the log never records. */
  predicate IsSuppressed(kind: string) {
    kind == "WS" || kind == "LINE_COMMENT" || kind == "BLOCK_COMMENT"
  }

  /** Visiting one terminal: the log grows by that token exactly when its kind is not
      suppressed, and what was logged before stays as it was. */
  function Record(log: seq<Token>, kind: string, lexeme: string, line: int): (r: seq<Token>)
    ensures |log| <= |r| <= |log| + 1 && r[..|log|] == log
    ensures |r| == |log| + 1 <==> !IsSuppressed(kind)
    ensures |r| == |log| + 1 ==> r[|log|] == Token(kind, lexeme, line)
  {
    if IsSuppressed(kind) then log else log + [Token(kind, lexeme, line)]
  }

  /** Reference definition of the log's contents: the tokens of `ts` whose kind is not
      suppressed, in their original order. */
  function Kept(ts: seq<Token>): seq<Token> {
    if |ts| == 0 then []
    else (if IsSuppressed(ts[0].kind) then [] else [ts[0]]) + Kept(ts[1..])
  }

  /** Keeping distributes over concatenation, which is what makes the log follow
      document order when subtrees are visited one after another. */
  lemma {:induction false} KeptAppend(a: seq<Token>, b: seq<Token>)
    ensures Kept(a + b) == Kept(a) + Kept(b)
  {
    if |a| > 0 {
      assert (a + b)[1..] == a[1..] + b;
      KeptAppend(a[1..], b);
    } else {
      assert a + b == b;
    }
  }

  /** A token is in the kept sequence exactly when it occurs in the input and is not suppressed. */
  lemma {:induction false} KeptMembers(ts: seq<Token>, t: Token)
    ensures t in Kept(ts) <==> t in ts && !IsSuppressed(t.kind)
  {
    if |ts| > 0 {
      assert ts == [ts[0]] + ts[1..];
      KeptMembers(ts[1..], t);
    }
  }
}
