/** Token kinds, the operator-name table and the reclassification of scanned
    symbols: the vocabulary the lexer hands to the parser. */
module Tokens {

  datatype Option<+T> = None | Some(value: T)

  /** The type of a scanned item. Single-character punctuation carries its
      character; the other kinds are the parser's named terminals. */
  datatype Kind =
    | Punct(c: char)
    | AndF | Background | BangString | BraceExpansion | Cons | CtrlC
    | DoubleQuoted | Error | OrF | Pipe | Redirect | SingleQuoted
    | Substitute | Symbol
  {
    /** The kinds whose text is looked up in the operator table on emission. */
    predicate IsOperator() {
      this == Background || this == OrF || this == AndF
      || this == Pipe || this == Redirect || this == Substitute
    }
  }

  datatype Token = Token(kind: Kind, text: string)

  /** The distinguished item handed out when the user interrupts a read. */
  const CtrlCPressed: Token := Token(CtrlC, "")

  /** Whether an item is the interrupt sentinel: exactly the items of kind
      CtrlC with no text. */
  function Fatal(t: Token): (b: bool)
    ensures b <==> t.kind == CtrlC && t.text == ""
  {
    t == CtrlCPressed
  }

  /** Operator text as scanned, and the name the parser receives instead. */
  const OperatorTable: map<string, string> := map[
    "!>" := "_redirect_stderr_",
    "!>>" := "_append_stderr_",
    "!|" := "_pipe_stderr_",
    "!|+" := "_channel_stderr_",
    "&" := "spawn",
    "&&" := "and",
    "<" := "_redirect_stdin_",
    "<(" := "_substitute_stdout_",
    ">" := "_redirect_stdout_",
    ">(" := "_substitute_stdin_",
    ">>" := "_append_stdout_",
    "|" := "_pipe_stdout_",
    "|+" := "_channel_stdout_",
    "||" := "or"
  ]

  /** The text an item of the given kind carries once emitted. */
  function Rewrite(kind: Kind, s: string): (r: string)
    ensures r != s ==> kind.IsOperator() && s in OperatorTable
  {
    if kind.IsOperator() && s in OperatorTable then OperatorTable[s] else s
  }

  /** Operator text is always replaced by one of the table's names. */
  lemma RewriteYieldsName(kind: Kind, s: string)
    requires kind.IsOperator() && s in OperatorTable
    ensures Rewrite(kind, s) in OperatorTable.Values && Rewrite(kind, s) !in OperatorTable
  {
  }

  /** Distinct operators get distinct names, so the parser can tell them apart. */
  lemma OperatorNamesDistinct(a: string, b: string)
    requires a in OperatorTable && b in OperatorTable
    requires OperatorTable[a] == OperatorTable[b]
    ensures a == b
  {
  }

  predicate HasBrace(s: string) {
    '{' in s || '}' in s
  }

  /** What a scanned symbol is handed out as: a plain symbol when it has no
      brace, the brace itself when it is a lone brace, otherwise a brace
      expansion. */
  function SymbolKind(s: string): Kind {
    if !HasBrace(s) then Symbol
    else if |s| == 1 then Punct(s[0])
    else BraceExpansion
  }

  /** The brace scan emit runs over a symbol's text, remembering the last
      `{`, the last `}` and the last brace seen. */
  method ClassifySymbol(s: string) returns (k: Kind)
    ensures k == SymbolKind(s)
  {
    var left, right, token := -1, -1, Symbol;
    var i := 0;
    while i < |s|
      invariant 0 <= i <= |s|
      invariant -1 <= left < i && -1 <= right < i
      invariant left >= 0 ==> s[left] == '{'
      invariant right >= 0 ==> s[right] == '}'
      invariant (left == -1 && right == -1) <==> !HasBrace(s[..i])
      invariant token == Symbol <==> !HasBrace(s[..i])
      invariant i > 0 && (s[i - 1] == '{' || s[i - 1] == '}') ==> token == Punct(s[i - 1])
    {
      assert s[..i + 1] == s[..i] + [s[i]];
      if s[i] == '{' {
        left := i;
        token := Punct('{');
      } else if s[i] == '}' {
        right := i;
        token := Punct('}');
      }
      i := i + 1;
    }
    assert s[..i] == s;
    k := BraceExpansion;
    if left == right || |s| == 1 {
      k := token;
    }
  }
}
