/** Character classes the lexer states test, and the search that the
    scanning loops perform: the first position at or after a start index
    whose character stops the scan. */
module Scanning {

  /** Characters that end a symbol (lexer.go, the case list of scanSymbol). */
  predicate IsDelimiter(c: char) {
    c == '\t' || c == '\n' || c == '\r' || c == ' ' || c == '"' || c == '#'
    || c == '%' || c == '&' || c == '\'' || c == '(' || c == ')' || c == ':'
    || c == ';' || c == '<' || c == '>' || c == '@' || c == '`' || c == '|'
  }

  /** scanSymbol stops at a delimiter or at an escape. */
  predicate EndsSymbol(c: char) {
    IsDelimiter(c) || c == '\\'
  }

  /** Double-quoted and bang strings stop at the closing quote or an escape. */
  predicate EndsQuoted(c: char) {
    c == '"' || c == '\\'
  }

  predicate IsSingleQuote(c: char) {
    c == '\''
  }

  predicate IsNewline(c: char) {
    c == '\n'
  }

  /** Whitespace that skipWhitespace drops without emitting anything. */
  predicate IsBlank(c: char) {
    c == '\t' || c == '\r' || c == ' '
  }

  /** Characters that skipWhitespace emits on their own as punctuation. */
  predicate IsSingle(c: char) {
    c == '\n' || c == '%' || c == '(' || c == ')' || c == ';' || c == '@'
    || c == '`' || c == '}'
  }

  /** Characters on which skipWhitespace leaves its loop. */
  predicate StartsToken(c: char) {
    !IsBlank(c) && !IsSingle(c)
  }

  /** The stop sets of the scanning loops. */
  datatype StopSet = SymbolEnd | QuoteEnd | SingleQuoteEnd | LineEnd | TokenStart

  predicate Stops(k: StopSet, c: char) {
    match k
    case SymbolEnd => EndsSymbol(c)
    case QuoteEnd => EndsQuoted(c)
    case SingleQuoteEnd => IsSingleQuote(c)
    case LineEnd => IsNewline(c)
    case TokenStart => StartsToken(c)
  }

  /** The first index at or after `i` whose character is in stop set `k`,
      or the length of `s` when there is none. */
  function NextStop(s: string, i: nat, k: StopSet): (j: nat)
    requires i <= |s|
    ensures i <= j <= |s|
    ensures forall m | i <= m < j :: !Stops(k, s[m])
    ensures j < |s| ==> Stops(k, s[j])
    decreases |s| - i
  {
    if i == |s| || Stops(k, s[i]) then i else NextStop(s, i + 1, k)
  }

  /** A scan that passed only characters outside the stop set and ended at
      one inside it (or at the end) ended exactly where NextStop says. */
  lemma {:induction false} NextStopAt(s: string, i: nat, j: nat, k: StopSet)
    requires i <= j <= |s|
    requires forall m | i <= m < j :: !Stops(k, s[m])
    requires j == |s| || Stops(k, s[j])
    ensures NextStop(s, i, k) == j
    decreases j - i
  {
    if i < j {
      NextStopAt(s, i + 1, j, k);
    }
  }

  /** Reading one more character extends the text read by that character. */
  lemma SliceSnoc(s: string, i: int, j: int)
    requires 0 <= i <= j < |s|
    ensures s[i..j + 1] == s[i..j] + [s[j]]
  {
  }
}
