/** The lexer's state machine on values: a configuration of the scanner's
    fields, one step function per state, the run loop that steps them, and
    what every step and every run preserves. */
module Machine {
  import opened Tokens
  import opened Scanning
  import opened Emission

  /** The lexer actions (lexer.go keeps them as pointers to functions). */
  datatype State =
    | AfterAmpersand | AfterBackslash | AfterBang | AfterBangGreater
    | AfterColon | AfterGreaterThan | AfterLessThan | AfterPipe
    | ScanBangString | ScanDoubleQuoted | ScanSingleQuoted | ScanSymbol
    | SkipComment | SkipWhitespace
  {
    /** The states an escape resumes. */
    predicate Resumable() {
      this == ScanSymbol || this == ScanBangString || this == ScanDoubleQuoted
    }
  }

  /** The state skipWhitespace moves to on a character that starts a token. */
  function Entry(c: char): State {
    if c == '!' then AfterBang
    else if c == '"' then ScanDoubleQuoted
    else if c == '#' then SkipComment
    else if c == '&' then AfterAmpersand
    else if c == '\'' then ScanSingleQuoted
    else if c == ':' then AfterColon
    else if c == '<' then AfterLessThan
    else if c == '>' then AfterGreaterThan
    else if c == '\\' then AfterBackslash
    else if c == '|' then AfterPipe
    else ScanSymbol
  }

  /** The second part of the run loop's measure: the states that may hand
      over without consuming input rank above the states they hand over to. */
  function Rank(s: Option<State>): nat {
    match s
    case None => 0
    case Some(SkipWhitespace) => 1
    case Some(AfterBang) => 3
    case Some(_) => 2
  }

  /** The fields of the lexer a state reads and writes: the buffer and its
      cursor, the state an escape resumes, the output side, and whether the
      scanner is still alive. */
  datatype Config = Config(
    bytes: string, index: int, start: int, width: int,
    saved: Option<State>, out: Emitter, alive: bool)
  {
    predicate Bounded() {
      0 <= start <= index <= |bytes|
    }
  }

  /** What holds whenever the machine is in state `s`: an operator state
      has its opening text under the cursor, and an escape has a state to
      resume. */
  predicate Entered(c: Config, s: State) {
    c.Bounded() &&
    match s
    case AfterAmpersand => c.index == c.start + 1 && c.bytes[c.start] == '&'
    case AfterBang => c.index == c.start + 1 && c.bytes[c.start] == '!'
    case AfterBangGreater => c.index == c.start + 2 && c.bytes[c.start] == '!' && c.bytes[c.start + 1] == '>'
    case AfterColon => c.index == c.start + 1 && c.bytes[c.start] == ':'
    case AfterGreaterThan => c.index == c.start + 1 && c.bytes[c.start] == '>'
    case AfterLessThan => c.index == c.start + 1 && c.bytes[c.start] == '<'
    case AfterPipe =>
      || (c.index == c.start + 1 && c.bytes[c.start] == '|')
      || (c.index == c.start + 2 && c.bytes[c.start] == '!' && c.bytes[c.start + 1] == '|')
    case AfterBackslash => c.saved.Some? && c.saved.value.Resumable()
    case _ => true
  }

  /** The cursor after reading the character under it. */
  function Advance(c: Config): (d: Config)
    requires c.Bounded() && c.index < |c.bytes|
    ensures d.Bounded() && d.index == c.index + 1 && d.width == 1
  {
    c.(index := c.index + 1, width := 1)
  }

  /** emit: the output side takes the item scanned since `start`, and the
      item start moves to the cursor unless the newline was dropped; once
      the scanner is shut down nothing changes. */
  function EmitAt(c: Config, kind: Kind): (d: Config)
    requires c.Bounded()
    ensures d.Bounded() && d.bytes == c.bytes && d.index == c.index && d.width == c.width
    ensures d.saved == c.saved && d.alive == c.alive
    ensures c.out.items <= d.out.items && (c.out.first != [] ==> d.out.first != [])
  {
    if !c.alive then c
    else
      c.(out := Emission.Emit(c.out, kind, c.bytes[c.start..c.index]),
         start := if Suppressed(c.out.after, kind) then c.start else c.index)
  }

  /** How a state ends an item: emit what was scanned, after taking one
      more character when `take` says so, and go back to skipping blanks. */
  function Finish(c: Config, take: bool, kind: Kind): (Config, Option<State>)
    requires c.Bounded() && (take ==> c.index < |c.bytes|)
  {
    (EmitAt(if take then Advance(c) else c, kind), Some(SkipWhitespace))
  }

  /* One function per state: the configuration it leaves and the state it
     names next (None halts the run). */

  function AfterAmpersandStep(c: Config): (Config, Option<State>)
    requires c.Bounded()
  {
    if c.index == |c.bytes| then (c, None)
    else if c.bytes[c.index] == '&' then Finish(c, true, AndF)
    else Finish(c, false, Background)
  }

  function AfterBackslashStep(c: Config): (Config, Option<State>)
    requires c.Bounded()
  {
    if c.index == |c.bytes| then (c.(width := 0), None)
    else (Advance(c).(saved := None), c.saved)
  }

  function AfterBangStep(c: Config): (Config, Option<State>)
    requires c.Bounded()
  {
    if c.index == |c.bytes| then (c, None)
    else if c.bytes[c.index] == '"' then (Advance(c), Some(ScanBangString))
    else if c.bytes[c.index] == '>' then (Advance(c), Some(AfterBangGreater))
    else if c.bytes[c.index] == '|' then (Advance(c), Some(AfterPipe))
    else (c, Some(ScanSymbol))
  }

  function AfterBangGreaterStep(c: Config): (Config, Option<State>)
    requires c.Bounded()
  {
    if c.index == |c.bytes| then (c, None)
    else if c.bytes[c.index] == '>' then Finish(c, true, Redirect)
    else Finish(c, false, Redirect)
  }

  function AfterColonStep(c: Config): (Config, Option<State>)
    requires c.Bounded()
  {
    if c.index == |c.bytes| then (c, None)
    else if c.bytes[c.index] == ':' then Finish(c, true, Cons)
    else Finish(c, false, Punct(':'))
  }

  function AfterGreaterThanStep(c: Config): (Config, Option<State>)
    requires c.Bounded()
  {
    if c.index == |c.bytes| then (c, None)
    else if c.bytes[c.index] == '(' then Finish(c, true, Substitute)
    else if c.bytes[c.index] == '>' then Finish(c, true, Redirect)
    else Finish(c, false, Redirect)
  }

  function AfterLessThanStep(c: Config): (Config, Option<State>)
    requires c.Bounded()
  {
    if c.index == |c.bytes| then (c, None)
    else if c.bytes[c.index] == '(' then Finish(c, true, Substitute)
    else Finish(c, false, Redirect)
  }

  function AfterPipeStep(c: Config): (Config, Option<State>)
    requires c.Bounded()
  {
    if c.index == |c.bytes| then (c, None)
    else if c.bytes[c.index] == '+' then Finish(c, true, Pipe)
    else if c.bytes[c.index] == '|' && c.bytes[c.start] != '!' then Finish(c, true, OrF)
    else Finish(c, false, Pipe)
  }

  /** scanBangString and scanDoubleQuoted, which differ only in the item
      type and the state an escape resumes. */
  function ScanQuotedStep(c: Config, kind: Kind, self: State): (Config, Option<State>)
    requires c.Bounded()
  {
    var j := NextStop(c.bytes, c.index, QuoteEnd);
    if j == |c.bytes| then (c.(index := j, width := 0), None)
    else
      var d := c.(index := j + 1, width := 1);
      if c.bytes[j] == '"' then (EmitAt(d, kind), Some(SkipWhitespace))
      else (d.(saved := Some(self)), Some(AfterBackslash))
  }

  function ScanSingleQuotedStep(c: Config): (Config, Option<State>)
    requires c.Bounded()
  {
    var j := NextStop(c.bytes, c.index, SingleQuoteEnd);
    if j == |c.bytes| then (c.(index := j, width := 0), None)
    else (EmitAt(c.(index := j + 1, width := 1), SingleQuoted), Some(SkipWhitespace))
  }

  /** What scanSymbol does at the character that stopped its scan. */
  function EndSymbolStep(c: Config): (Config, Option<State>)
    requires c.Bounded()
  {
    if c.index == |c.bytes| then (c, None)
    else if c.bytes[c.index] == '\\' then (Advance(c).(saved := Some(ScanSymbol)), Some(AfterBackslash))
    else Finish(c, false, Symbol)
  }

  function ScanSymbolStep(c: Config): (Config, Option<State>)
    requires c.Bounded()
  {
    var j := NextStop(c.bytes, c.index, SymbolEnd);
    EndSymbolStep(c.(index := j, width := if j > c.index then 1 else c.width))
  }

  function SkipCommentStep(c: Config): (Config, Option<State>)
    requires c.Bounded()
  {
    var j := NextStop(c.bytes, c.index, LineEnd);
    if j == |c.bytes| then (c.(index := j, width := 0), None)
    else (EmitAt(c.(index := j + 1, width := 1), Punct('\n')), Some(SkipWhitespace))
  }

  function SkipWhitespaceStep(c: Config): (Config, Option<State>)
    requires c.Bounded()
  {
    var j := NextStop(c.bytes, c.index, TokenStart);
    var d := c.(out := if c.alive then EmitSingles(c.out, c.bytes[c.index..j]) else c.out, start := j);
    if j == |c.bytes| then (d.(index := j, width := 0), None)
    else
      (d.(index := j + 1, width := 1, saved := if c.bytes[j] == '\\' then Some(ScanSymbol) else c.saved),
       Some(Entry(c.bytes[j])))
  }

  /** One step of the run loop: the current state's function. */
  function StepOf(c: Config, s: State): (Config, Option<State>)
    requires c.Bounded()
  {
    match s
    case AfterAmpersand => AfterAmpersandStep(c)
    case AfterBackslash => AfterBackslashStep(c)
    case AfterBang => AfterBangStep(c)
    case AfterBangGreater => AfterBangGreaterStep(c)
    case AfterColon => AfterColonStep(c)
    case AfterGreaterThan => AfterGreaterThanStep(c)
    case AfterLessThan => AfterLessThanStep(c)
    case AfterPipe => AfterPipeStep(c)
    case ScanBangString => ScanQuotedStep(c, BangString, ScanBangString)
    case ScanDoubleQuoted => ScanQuotedStep(c, DoubleQuoted, ScanDoubleQuoted)
    case ScanSingleQuoted => ScanSingleQuotedStep(c)
    case ScanSymbol => ScanSymbolStep(c)
    case SkipComment => SkipCommentStep(c)
    case SkipWhitespace => SkipWhitespaceStep(c)
  }

  /** What a step `r` of state `s` from `c` keeps: the buffer and the
      scanner's liveness stay, the cursor never moves back, and the step
      either consumes input or hands over to a lower-ranked state; every
      state but an escape halts only at the end of the buffer. */
  predicate Progress(c: Config, s: State, r: (Config, Option<State>)) {
    && r.0.Bounded() && r.0.bytes == c.bytes && r.0.alive == c.alive && c.index <= r.0.index
    && (r.1.None? && s != AfterBackslash ==> r.0.index == |c.bytes|)
    && (r.0.index > c.index || Rank(r.1) < Rank(Some(s)))
  }

  /** The character skipWhitespace hands over is the opening text of the
      state it enters. */
  lemma EnteredOnEntry(c: Config, ch: char)
    requires c.Bounded() && c.index == c.start + 1 && c.bytes[c.start] == ch
    requires ch == '\\' ==> c.saved == Some(ScanSymbol)
    ensures Entered(c, Entry(ch))
  {
  }

  /** The item types the states ask emit for. */
  predicate Requested(kind: Kind) {
    || kind == AndF || kind == Background || kind == Redirect || kind == Cons
    || kind == Substitute || kind == Pipe || kind == OrF || kind == BangString
    || kind == DoubleQuoted || kind == SingleQuoted || kind == Symbol
    || kind == Punct(':') || kind == Punct('\n')
  }

  /** An emit the states ask for keeps the queue well formed. */
  lemma EmitAtWellFormed(c: Config, kind: Kind)
    requires c.Bounded() && AllWellFormed(c.out.items) && Requested(kind)
    ensures AllWellFormed(EmitAt(c, kind).out.items)
  {
    if c.alive {
      assert Emittable(kind, c.bytes[c.start..c.index]) by {
        if kind.Punct? {
          assert !HasBrace([kind.c]);
        }
      }
      EmitWellFormed(c.out, kind, c.bytes[c.start..c.index]);
    }
  }

  /** Ending an item the states ask for keeps the queue well formed. */
  lemma FinishWellFormed(c: Config, take: bool, kind: Kind)
    requires c.Bounded() && (take ==> c.index < |c.bytes|)
    requires AllWellFormed(c.out.items) && Requested(kind)
    ensures AllWellFormed(Finish(c, take, kind).0.out.items)
  {
    EmitAtWellFormed(if take then Advance(c) else c, kind);
  }

  /** What a step keeps of the output side: it only appends to the queue,
      never stops tracking first words, and keeps the queue well formed. */
  predicate Keeps(c: Config, d: Config) {
    && c.out.items <= d.out.items
    && (c.out.first != [] ==> d.out.first != [])
    && (AllWellFormed(c.out.items) ==> AllWellFormed(d.out.items))
  }

  /** The context a step leaves: the next state's context holds, and a
      state that halts does so at the end of the buffer and keeps its own. */
  predicate EnteredNext(c: Config, s: State, r: (Config, Option<State>)) {
    && (r.1.Some? ==> Entered(r.0, r.1.value))
    && (r.1.None? ==> Entered(r.0, s) && r.0.index == |c.bytes|)
  }

  /** An operator state that ends its item progresses, keeps the output
      and hands over to skipWhitespace. */
  lemma FinishSound(c: Config, take: bool, kind: Kind, s: State)
    requires c.Bounded() && c.index < |c.bytes| && Requested(kind) && Rank(Some(s)) == 2
    ensures var r := Finish(c, take, kind);
      Progress(c, s, r) && Keeps(c, r.0) && EnteredNext(c, s, r)
  {
    if AllWellFormed(c.out.items) {
      FinishWellFormed(c, take, kind);
    }
  }

  /* One lemma per step function: it progresses, keeps the output, and
     passes on the context of the state it names next. */

  lemma AfterAmpersandSound(c: Config)
    requires c.Bounded()
    ensures var r := AfterAmpersandStep(c); Progress(c, AfterAmpersand, r) && Keeps(c, r.0) && (Entered(c, AfterAmpersand) ==> EnteredNext(c, AfterAmpersand, r))
  {
    if c.index < |c.bytes| {
      var at := c.bytes[c.index];
      if at == '&' {
        FinishSound(c, true, AndF, AfterAmpersand);
      } else {
        FinishSound(c, false, Background, AfterAmpersand);
      }
    }
  }

  lemma AfterBackslashSound(c: Config)
    requires c.Bounded()
    ensures var r := AfterBackslashStep(c); Progress(c, AfterBackslash, r) && Keeps(c, r.0) && (Entered(c, AfterBackslash) ==> EnteredNext(c, AfterBackslash, r))
    ensures var r := AfterBackslashStep(c);
      && (c.index < |c.bytes| ==> r.1 == c.saved && r.0.saved == None && r.0.index == c.index + 1)
      && (c.index == |c.bytes| ==> r.1 == None && r.0.saved == c.saved)
  {
  }

  lemma AfterBangSound(c: Config)
    requires c.Bounded()
    ensures var r := AfterBangStep(c); Progress(c, AfterBang, r) && Keeps(c, r.0) && (Entered(c, AfterBang) ==> EnteredNext(c, AfterBang, r))
  {
  }

  lemma AfterBangGreaterSound(c: Config)
    requires c.Bounded()
    ensures var r := AfterBangGreaterStep(c); Progress(c, AfterBangGreater, r) && Keeps(c, r.0) && (Entered(c, AfterBangGreater) ==> EnteredNext(c, AfterBangGreater, r))
  {
    if c.index < |c.bytes| {
      var at := c.bytes[c.index];
      if at == '>' {
        FinishSound(c, true, Redirect, AfterBangGreater);
      } else {
        FinishSound(c, false, Redirect, AfterBangGreater);
      }
    }
  }

  lemma AfterColonSound(c: Config)
    requires c.Bounded()
    ensures var r := AfterColonStep(c); Progress(c, AfterColon, r) && Keeps(c, r.0) && (Entered(c, AfterColon) ==> EnteredNext(c, AfterColon, r))
  {
    if c.index < |c.bytes| {
      var at := c.bytes[c.index];
      if at == ':' {
        FinishSound(c, true, Cons, AfterColon);
      } else {
        FinishSound(c, false, Punct(':'), AfterColon);
      }
    }
  }

  lemma AfterGreaterThanSound(c: Config)
    requires c.Bounded()
    ensures var r := AfterGreaterThanStep(c); Progress(c, AfterGreaterThan, r) && Keeps(c, r.0) && (Entered(c, AfterGreaterThan) ==> EnteredNext(c, AfterGreaterThan, r))
  {
    if c.index < |c.bytes| {
      var at := c.bytes[c.index];
      if at == '(' {
        FinishSound(c, true, Substitute, AfterGreaterThan);
      } else if at == '>' {
        FinishSound(c, true, Redirect, AfterGreaterThan);
      } else {
        FinishSound(c, false, Redirect, AfterGreaterThan);
      }
    }
  }

  lemma AfterLessThanSound(c: Config)
    requires c.Bounded()
    ensures var r := AfterLessThanStep(c); Progress(c, AfterLessThan, r) && Keeps(c, r.0) && (Entered(c, AfterLessThan) ==> EnteredNext(c, AfterLessThan, r))
  {
    if c.index < |c.bytes| {
      var at := c.bytes[c.index];
      if at == '(' {
        FinishSound(c, true, Substitute, AfterLessThan);
      } else {
        FinishSound(c, false, Redirect, AfterLessThan);
      }
    }
  }

  lemma AfterPipeSound(c: Config)
    requires c.Bounded()
    ensures var r := AfterPipeStep(c); Progress(c, AfterPipe, r) && Keeps(c, r.0) && (Entered(c, AfterPipe) ==> EnteredNext(c, AfterPipe, r))
  {
    if c.index < |c.bytes| {
      var at := c.bytes[c.index];
      if at == '+' {
        FinishSound(c, true, Pipe, AfterPipe);
      } else if at == '|' && c.bytes[c.start] != '!' {
        FinishSound(c, true, OrF, AfterPipe);
      } else {
        FinishSound(c, false, Pipe, AfterPipe);
      }
    }
  }

  lemma ScanQuotedSound(c: Config, kind: Kind, self: State)
    requires c.Bounded() && (kind, self) in {(BangString, ScanBangString), (DoubleQuoted, ScanDoubleQuoted)}
    ensures var r := ScanQuotedStep(c, kind, self); Progress(c, self, r) && Keeps(c, r.0) && (Entered(c, self) ==> EnteredNext(c, self, r))
    ensures var r := ScanQuotedStep(c, kind, self); r.1 == Some(AfterBackslash) ==> r.0.saved == Some(self)
  {
    var j := NextStop(c.bytes, c.index, QuoteEnd);
    if j < |c.bytes| {
      var d := c.(index := j + 1, width := 1);
      if c.bytes[j] == '"' {
        assert ScanQuotedStep(c, kind, self) == (EmitAt(d, kind), Some(SkipWhitespace));
        if AllWellFormed(c.out.items) {
          EmitAtWellFormed(d, kind);
        }
      } else {
        assert ScanQuotedStep(c, kind, self) == (d.(saved := Some(self)), Some(AfterBackslash));
      }
    }
  }

  lemma ScanSingleQuotedSound(c: Config)
    requires c.Bounded()
    ensures var r := ScanSingleQuotedStep(c); Progress(c, ScanSingleQuoted, r) && Keeps(c, r.0) && (Entered(c, ScanSingleQuoted) ==> EnteredNext(c, ScanSingleQuoted, r))
  {
    var j := NextStop(c.bytes, c.index, SingleQuoteEnd);
    if j < |c.bytes| {
      var d := c.(index := j + 1, width := 1);
      assert ScanSingleQuotedStep(c) == (EmitAt(d, SingleQuoted), Some(SkipWhitespace));
      if AllWellFormed(c.out.items) {
        EmitAtWellFormed(d, SingleQuoted);
      }
    }
  }

  /** Where a symbol ends: at the end of the buffer it halts, at a
      backslash it saves itself, and otherwise it emits the symbol. */
  lemma EndSymbolSound(d: Config)
    requires d.Bounded()
    ensures var r := EndSymbolStep(d); Progress(d, ScanSymbol, r) && Keeps(d, r.0) && EnteredNext(d, ScanSymbol, r)
    ensures var r := EndSymbolStep(d); r.1 == Some(AfterBackslash) ==> r.0.saved == Some(ScanSymbol)
  {
    if d.index < |d.bytes| && d.bytes[d.index] != '\\' && AllWellFormed(d.out.items) {
      FinishWellFormed(d, false, Symbol);
    }
  }

  lemma ScanSymbolSound(c: Config)
    requires c.Bounded()
    ensures var r := ScanSymbolStep(c); Progress(c, ScanSymbol, r) && Keeps(c, r.0) && (Entered(c, ScanSymbol) ==> EnteredNext(c, ScanSymbol, r))
    ensures var r := ScanSymbolStep(c); r.1 == Some(AfterBackslash) ==> r.0.saved == Some(ScanSymbol)
  {
    var j := NextStop(c.bytes, c.index, SymbolEnd);
    var d := c.(index := j, width := if j > c.index then 1 else c.width);
    assert ScanSymbolStep(c) == EndSymbolStep(d);
    EndSymbolSound(d);
  }

  lemma SkipCommentSound(c: Config)
    requires c.Bounded()
    ensures var r := SkipCommentStep(c); Progress(c, SkipComment, r) && Keeps(c, r.0) && (Entered(c, SkipComment) ==> EnteredNext(c, SkipComment, r))
  {
    var j := NextStop(c.bytes, c.index, LineEnd);
    if j < |c.bytes| {
      var d := c.(index := j + 1, width := 1);
      assert SkipCommentStep(c) == (EmitAt(d, Punct('\n')), Some(SkipWhitespace));
      if AllWellFormed(c.out.items) {
        EmitAtWellFormed(d, Punct('\n'));
      }
    }
  }

  lemma SkipWhitespaceSound(c: Config)
    requires c.Bounded()
    ensures var r := SkipWhitespaceStep(c); Progress(c, SkipWhitespace, r) && Keeps(c, r.0) && (Entered(c, SkipWhitespace) ==> EnteredNext(c, SkipWhitespace, r))
    ensures var r := SkipWhitespaceStep(c); r.1 == Some(AfterBackslash) ==> r.0.saved == Some(ScanSymbol)
  {
    var j := NextStop(c.bytes, c.index, TokenStart);
    if AllWellFormed(c.out.items) {
      EmitSinglesWellFormed(c.out, c.bytes[c.index..j]);
    }
    if j < |c.bytes| {
      EnteredOnEntry(SkipWhitespaceStep(c).0, c.bytes[j]);
    }
  }

  /** Every step progresses (so the run loop terminates), keeps the
      output (the queue only grows, stays well formed, and first words stay
      tracked), and passes on the context of the state it names next. */
  lemma StepSound(c: Config, s: State)
    requires c.Bounded()
    ensures Progress(c, s, StepOf(c, s)) && Keeps(c, StepOf(c, s).0)
    ensures Entered(c, s) ==> EnteredNext(c, s, StepOf(c, s))
  {
    match s
    case AfterAmpersand => AfterAmpersandSound(c);
    case AfterBackslash => AfterBackslashSound(c);
    case AfterBang => AfterBangSound(c);
    case AfterBangGreater => AfterBangGreaterSound(c);
    case AfterColon => AfterColonSound(c);
    case AfterGreaterThan => AfterGreaterThanSound(c);
    case AfterLessThan => AfterLessThanSound(c);
    case AfterPipe => AfterPipeSound(c);
    case ScanBangString => ScanQuotedSound(c, BangString, ScanBangString);
    case ScanDoubleQuoted => ScanQuotedSound(c, DoubleQuoted, ScanDoubleQuoted);
    case ScanSingleQuoted => ScanSingleQuotedSound(c);
    case ScanSymbol => ScanSymbolSound(c);
    case SkipComment => SkipCommentSound(c);
    case SkipWhitespace => SkipWhitespaceSound(c);
  }

  /** The operator states emit their opening text (`head`) followed by what
      they consumed (`tail`); every such text is operator-table text. */
  lemma OperatorTextInTable(head: string, tail: string)
    requires || (head == "&" && (tail == "" || tail == "&"))
             || (head == "!>" && (tail == "" || tail == ">"))
             || (head == ">" && (tail == "" || tail == "(" || tail == ">"))
             || (head == "<" && (tail == "" || tail == "("))
             || ((head == "|" || head == "!|") && (tail == "" || tail == "+"))
             || (head == "|" && tail == "|")
    ensures head + tail in OperatorTable
  {
    if tail == "" {
      assert head + tail == head;
    } else if head == "&" {
      assert head + tail == "&&";
    } else if head == "!>" {
      assert head + tail == "!>>";
    } else if head == ">" {
      assert head + tail == ">(" || head + tail == ">>";
    } else if head == "<" {
      assert head + tail == "<(";
    } else {
      assert head + tail == "|+" || head + tail == "!|+" || head + tail == "||";
    }
  }

  /** The states that emit an operator. */
  predicate IsOperatorState(s: State) {
    s == AfterAmpersand || s == AfterBangGreater || s == AfterGreaterThan
    || s == AfterLessThan || s == AfterPipe
  }

  /** An operator item over `head + tail`, where `tail` is the character
      taken (if any), is queued under the operator's name. */
  lemma FinishNamed(c: Config, take: bool, kind: Kind, head: string, tail: string)
    requires c.Bounded() && (take ==> c.index < |c.bytes|) && c.alive && kind.IsOperator()
    requires c.bytes[c.start..c.index] == head
    requires tail == (if take then [c.bytes[c.index]] else "")
    requires head + tail in OperatorTable
    ensures var e := Finish(c, take, kind).0.out.items;
      |e| == |c.out.items| + 1 && e[|c.out.items|] == Token(kind, OperatorTable[head + tail])
  {
    var x := if take then Advance(c) else c;
    assert x.bytes[x.start..x.index] == head + tail;
    OperatorRenamed(c.out, kind, head + tail);
  }

  /** The text an operator state has under the cursor on entry. */
  lemma OperatorHead(c: Config, s: State)
    requires Entered(c, s) && IsOperatorState(s)
    ensures var head := c.bytes[c.start..c.index];
      && (s == AfterAmpersand ==> head == "&")
      && (s == AfterBangGreater ==> head == "!>")
      && (s == AfterGreaterThan ==> head == ">")
      && (s == AfterLessThan ==> head == "<")
      && (s == AfterPipe ==> head == "|" || head == "!|")
  {
  }

  /** Whatever an operator state emits is queued under a name from the
      operator table, never as the text that was scanned. */
  lemma OperatorStepNamed(c: Config, s: State)
    requires Entered(c, s) && IsOperatorState(s)
    ensures var d := StepOf(c, s).0;
      |d.out.items| > |c.out.items| ==>
        d.out.items[|c.out.items|].kind.IsOperator()
        && d.out.items[|c.out.items|].text in OperatorTable.Values
  {
    if c.index < |c.bytes| && c.alive {
      var at := c.bytes[c.index];
      var head := c.bytes[c.start..c.index];
      OperatorHead(c, s);
      var take, kind;
      match s {
      case AfterAmpersand =>
        take, kind := at == '&', if at == '&' then AndF else Background;
      case AfterBangGreater =>
        take, kind := at == '>', Redirect;
      case AfterGreaterThan =>
        take, kind := at == '(' || at == '>', if at == '(' then Substitute else Redirect;
      case AfterLessThan =>
        take, kind := at == '(', if at == '(' then Substitute else Redirect;
      case AfterPipe =>
        var orf := at == '|' && c.bytes[c.start] != '!';
        take, kind := at == '+' || orf, if at != '+' && orf then OrF else Pipe;
      }
      var tail := if take then [at] else "";
      assert StepOf(c, s) == Finish(c, take, kind);
      OperatorTextInTable(head, tail);
      FinishNamed(c, take, kind, head, tail);
      assert OperatorTable[head + tail] in OperatorTable.Values;
    }
  }

  /** The run loop: steps the machine from state `st` until a state halts
      or the scanner is shut down; `last` is the state that ran last. */
  function RunFrom(c: Config, st: Option<State>, last: State): (r: (Config, State))
    requires c.Bounded()
    ensures r.0.Bounded()
    decreases |c.bytes| - c.index, Rank(st)
  {
    if !c.alive || st.None? then (c, last)
    else
      StepSound(c, st.value);
      var r := StepOf(c, st.value);
      RunFrom(r.0, r.1, st.value)
  }

  /** A run keeps the buffer and the machine's context, only appends
      well-formed items, and, while the scanner is alive, consumes the whole
      buffer. */
  lemma {:induction false} RunKeeps(c: Config, st: Option<State>, last: State)
    requires c.Bounded() && AllWellFormed(c.out.items)
    requires st.Some? ==> Entered(c, st.value)
    requires st.None? ==> Entered(c, last) && c.index == |c.bytes|
    requires !c.alive ==> Entered(c, last)
    ensures var r := RunFrom(c, st, last);
      && Entered(r.0, r.1) && AllWellFormed(r.0.out.items)
      && r.0.bytes == c.bytes && r.0.alive == c.alive
      && (c.alive ==> r.0.index == |c.bytes|)
      && c.out.items <= r.0.out.items && (c.out.first != [] ==> r.0.out.first != [])
    decreases |c.bytes| - c.index, Rank(st)
  {
    if c.alive && st.Some? {
      StepSound(c, st.value);
      var r := StepOf(c, st.value);
      RunKeeps(r.0, r.1, st.value);
    }
  }

  /** The configuration a new line is scanned from: the buffer keeps the
      unfinished item and gains the line, and the queue starts empty. */
  function Appended(c: Config, line: string): (d: Config)
    requires c.Bounded()
    ensures d.Bounded() && d.start == 0 && d.out.items == []
    ensures d.bytes == c.bytes[c.start..] + line && d.bytes[d.index..] == c.bytes[c.index..] + line
  {
    var d := c.(bytes := c.bytes[c.start..] + line, index := c.index - c.start, start := 0,
                out := c.out.(items := []));
    assert d.bytes[d.index..] == c.bytes[c.index..] + line;
    d
  }

  /** Trimming the buffer to the unfinished item and appending a line
      keeps the context of the current state. */
  lemma AppendedEntered(c: Config, line: string, s: State)
    requires Entered(c, s)
    ensures Entered(Appended(c, line), s)
  {
    var d := Appended(c, line);
    assert d.index - d.start == c.index - c.start && d.saved == c.saved;
    if c.index > c.start {
      assert d.bytes[0] == c.bytes[c.start];
    }
    if c.index > c.start + 1 {
      assert d.bytes[1] == c.bytes[c.start + 1];
    }
  }

  /** A fresh scanner over `line`, as a new lexer has it. */
  function Fresh(line: string): Config {
    Config(line, 0, 0, 0, None, Emitter([], Error, []), true)
  }

  /** A new lexer scanning its first line starts from `Fresh`. */
  lemma AppendedToFresh(line: string)
    ensures Appended(Fresh(""), line) == Fresh(line)
  {
    assert Fresh("").bytes[0..] + line == line;
  }

  /** `&&` continues the statement, so the newline after it is dropped and
      `&&` is queued under its name alone. */
  lemma AndThenNewline()
    ensures RunFrom(Fresh("&&\n"), Some(SkipWhitespace), SkipWhitespace).0.out.items
      == [Token(AndF, "and")]
  {
    FirstToken("&&\n");
    var c1 := Config("&&\n", 1, 0, 1, None, Emitter([], Error, []), true);
    assert c1.bytes[0..2] == "&&";
    OperatorRenamed(c1.out, AndF, "&&");
    var e := Emitter([Token(AndF, "and")], AndF, []);
    assert Emission.Emit(c1.out, AndF, "&&") == e;
    var c2 := Config("&&\n", 2, 2, 1, None, e, true);
    assert StepOf(c1, AfterAmpersand) == (c2, Some(SkipWhitespace));
    NewlineDroppedAtEnd(c2, AfterAmpersand);
  }

  /** A lone `&` runs the command in the background and does not continue
      the statement: the newline after it is queued. */
  lemma BackgroundThenNewline()
    ensures RunFrom(Fresh("&\n"), Some(SkipWhitespace), SkipWhitespace).0.out.items
      == [Token(Background, "spawn"), Token(Punct('\n'), "\n")]
  {
    FirstToken("&\n");
    var c1 := Config("&\n", 1, 0, 1, None, Emitter([], Error, []), true);
    assert c1.bytes[0..1] == "&";
    OperatorRenamed(c1.out, Background, "&");
    var e1 := Emitter([Token(Background, "spawn")], Background, []);
    assert Emission.Emit(c1.out, Background, "&") == e1;
    var c2 := Config("&\n", 1, 1, 1, None, e1, true);
    assert StepOf(c1, AfterAmpersand) == (c2, Some(SkipWhitespace));
    NewlineKeptAtEnd(c2, AfterAmpersand);
  }

  /** At the end of the buffer every state halts without emitting: the
      buffer, the cursor, the saved state and the output all stay. */
  lemma HaltsAtEnd(c: Config, s: State)
    requires c.Bounded() && c.index == |c.bytes|
    ensures var r := StepOf(c, s);
      && r.1 == None && r.0.out == c.out && r.0.bytes == c.bytes && r.0.index == c.index
      && r.0.saved == c.saved && r.0.alive == c.alive
  {
    if s == SkipWhitespace {
      assert c.bytes[c.index..c.index] == [];
    }
  }

  /** So a run that reaches the end of the buffer stops in the state it is
      in, and queues nothing more. */
  lemma RunHaltsAtEnd(c: Config, s: State, last: State)
    requires c.Bounded() && c.index == |c.bytes|
    ensures var r := RunFrom(c, Some(s), last);
      r.0.out == c.out && r.1 == (if c.alive then s else last)
  {
    HaltsAtEnd(c, s);
  }

  /** A fresh scanner over a line that starts with a token character,
      other than an escape, consumes that character and enters the state
      it selects. */
  lemma FirstToken(line: string)
    requires |line| > 0 && StartsToken(line[0]) && line[0] != '\\'
    ensures RunFrom(Fresh(line), Some(SkipWhitespace), SkipWhitespace)
      == RunFrom(Config(line, 1, 0, 1, None, Emitter([], Error, []), true), Some(Entry(line[0])), SkipWhitespace)
  {
    assert NextStop(line, 0, TokenStart) == 0;
    assert line[0..0] == [];
    assert StepOf(Fresh(line), SkipWhitespace)
      == (Config(line, 1, 0, 1, None, Emitter([], Error, []), true), Some(Entry(line[0])));
  }

  /** skipWhitespace at a character that starts a token, other than an
      escape, consumes it and enters the state that character selects. */
  lemma TokenHere(c: Config, last: State)
    requires c.Bounded() && c.alive && c.index < |c.bytes|
    requires StartsToken(c.bytes[c.index]) && c.bytes[c.index] != '\\'
    ensures RunFrom(c, Some(SkipWhitespace), last)
      == RunFrom(Config(c.bytes, c.index + 1, c.index, 1, c.saved, c.out, true),
                 Some(Entry(c.bytes[c.index])), SkipWhitespace)
  {
    assert NextStop(c.bytes, c.index, TokenStart) == c.index;
    assert c.bytes[c.index..c.index] == [];
    assert StepOf(c, SkipWhitespace)
      == (Config(c.bytes, c.index + 1, c.index, 1, c.saved, c.out, true), Some(Entry(c.bytes[c.index])));
  }

  /** A newline that ends the buffer right after a continuation operator
      is dropped, and the run halts there. */
  lemma NewlineDroppedAtEnd(c: Config, last: State)
    requires c.Bounded() && c.alive && c.index + 1 == |c.bytes| && c.bytes[c.index] == '\n'
    requires Continues(c.out.after)
    ensures RunFrom(c, Some(SkipWhitespace), last).0.out == c.out
  {
    NextStopAt(c.bytes, c.index, c.index + 1, TokenStart);
    assert c.bytes[c.index..c.index + 1] == "\n";
    assert EmitSingles(c.out, "\n") == c.out by {
      assert "\n"[..0] == [];
    }
    var d := c.(index := c.index + 1, start := c.index + 1, width := 0);
    assert StepOf(c, SkipWhitespace) == (d, None);
  }

  /** A newline that ends the buffer after an item that does not continue
      the statement is queued, and the run halts there. */
  lemma NewlineKeptAtEnd(c: Config, last: State)
    requires c.Bounded() && c.alive && c.index + 1 == |c.bytes| && c.bytes[c.index] == '\n'
    requires !Continues(c.out.after)
    ensures RunFrom(c, Some(SkipWhitespace), last).0.out.items
      == c.out.items + [Token(Punct('\n'), "\n")]
    ensures RunFrom(c, Some(SkipWhitespace), last).0.out.first == c.out.first
  {
    NextStopAt(c.bytes, c.index, c.index + 1, TokenStart);
    assert c.bytes[c.index..c.index + 1] == "\n";
    var e := Emission.Emit(c.out, Punct('\n'), "\n");
    assert EmitSingles(c.out, "\n") == e by {
      assert "\n"[..0] == [];
    }
    PlainQueued(c.out, Punct('\n'), "\n");
    var d := c.(index := c.index + 1, start := c.index + 1, width := 0, out := e);
    assert StepOf(c, SkipWhitespace) == (d, None);
  }

  /** A double-quoted scan that reaches its closing quote at the last
      character of the buffer emits the item from its opening quote. */
  lemma ClosingQuote(c: Config)
    requires c.Bounded() && c.alive && c.index < |c.bytes| && c.bytes[|c.bytes| - 1] == '"'
    requires forall m | c.index <= m < |c.bytes| - 1 :: !EndsQuoted(c.bytes[m])
    ensures ScanQuotedStep(c, DoubleQuoted, ScanDoubleQuoted)
      == (c.(index := |c.bytes|, width := 1, start := |c.bytes|,
             out := Emission.Emit(c.out, DoubleQuoted, c.bytes[c.start..])), Some(SkipWhitespace))
  {
    var n := |c.bytes|;
    NextStopAt(c.bytes, c.index, n - 1, QuoteEnd);
    var d := c.(index := n, width := 1);
    assert ScanQuotedStep(c, DoubleQuoted, ScanDoubleQuoted) == (EmitAt(d, DoubleQuoted), Some(SkipWhitespace));
    assert !Suppressed(c.out.after, DoubleQuoted);
    assert c.bytes[c.start..n] == c.bytes[c.start..];
    assert EmitAt(d, DoubleQuoted)
      == d.(start := n, out := Emission.Emit(c.out, DoubleQuoted, c.bytes[c.start..]));
  }

  /** A double-quoted item whose closing quote is the last character of
      the buffer is queued whole, from its opening quote, and the run
      halts after it. */
  lemma QuotedItemAtEnd(c: Config, last: State)
    requires c.Bounded() && c.alive && c.index < |c.bytes| && c.bytes[|c.bytes| - 1] == '"'
    requires forall m | c.index <= m < |c.bytes| - 1 :: !EndsQuoted(c.bytes[m])
    ensures RunFrom(c, Some(ScanDoubleQuoted), last).0.out.items
      == c.out.items + [Token(DoubleQuoted, c.bytes[c.start..])]
  {
    ClosingQuote(c);
    assert StepOf(c, ScanDoubleQuoted) == ScanQuotedStep(c, DoubleQuoted, ScanDoubleQuoted);
    var e := StepOf(c, ScanDoubleQuoted).0;
    PlainQueued(c.out, DoubleQuoted, c.bytes[c.start..]);
    RunHaltsAtEnd(e, SkipWhitespace, ScanDoubleQuoted);
  }

  /** The first line of a split double-quoted item: the scanner is left
      inside the quotes, at the end of the buffer, with nothing queued. */
  lemma OpenQuote()
    ensures RunFrom(Fresh("\"abc"), Some(SkipWhitespace), SkipWhitespace)
      == (Config("\"abc", 4, 0, 0, None, Emitter([], Error, []), true), ScanDoubleQuoted)
  {
    FirstToken("\"abc");
    var c1 := Config("\"abc", 1, 0, 1, None, Emitter([], Error, []), true);
    NextStopAt(c1.bytes, 1, 4, QuoteEnd);
    var c2 := Config("\"abc", 4, 0, 0, None, Emitter([], Error, []), true);
    assert StepOf(c1, ScanDoubleQuoted) == (c2, None);
  }

  /** The second line closes the quotes, and the whole item is queued. */
  lemma CloseQuote()
    ensures RunFrom(Config("\"abcdef\"", 4, 0, 0, None, Emitter([], Error, []), true),
                    Some(ScanDoubleQuoted), ScanDoubleQuoted).0.out.items
      == [Token(DoubleQuoted, "\"abcdef\"")]
  {
    var d0 := Config("\"abcdef\"", 4, 0, 0, None, Emitter([], Error, []), true);
    QuotedItemAtEnd(d0, ScanDoubleQuoted);
    assert d0.bytes[0..] == "\"abcdef\"";
  }

  /** A double-quoted item split across two lines comes out as one item:
      the first line leaves the scanner inside the quotes with nothing
      queued, and the second line closes it. */
  lemma SplitQuote()
    ensures var r1 := RunFrom(Fresh("\"abc"), Some(SkipWhitespace), SkipWhitespace);
      && r1.0.out.items == [] && r1.1 == ScanDoubleQuoted
      && RunFrom(Appended(r1.0, "def\""), Some(r1.1), r1.1).0.out.items
         == [Token(DoubleQuoted, "\"abcdef\"")]
  {
    OpenQuote();
    var c := Config("\"abc", 4, 0, 0, None, Emitter([], Error, []), true);
    assert c.bytes[0..] + "def\"" == "\"abcdef\"";
    assert Appended(c, "def\"") == Config("\"abcdef\"", 4, 0, 0, None, Emitter([], Error, []), true);
    CloseQuote();
  }

  /** An escaped quote does not close a double-quoted item: the scan stops
      at the escape and saves itself. */
  lemma EscapeInQuotes()
    ensures RunFrom(Fresh("\"a\\\"b\""), Some(SkipWhitespace), SkipWhitespace)
      == RunFrom(Config("\"a\\\"b\"", 3, 0, 1, Some(ScanDoubleQuoted), Emitter([], Error, []), true),
                 Some(AfterBackslash), ScanDoubleQuoted)
  {
    FirstToken("\"a\\\"b\"");
    var c1 := Config("\"a\\\"b\"", 1, 0, 1, None, Emitter([], Error, []), true);
    NextStopAt(c1.bytes, 1, 2, QuoteEnd);
    var c2 := Config("\"a\\\"b\"", 3, 0, 1, Some(ScanDoubleQuoted), Emitter([], Error, []), true);
    assert StepOf(c1, ScanDoubleQuoted) == (c2, Some(AfterBackslash));
  }

  /** An escaped quote does not close a double-quoted item: the item keeps
      its quotes and the escape. */
  lemma EscapedQuote()
    ensures RunFrom(Fresh("\"a\\\"b\""), Some(SkipWhitespace), SkipWhitespace).0.out.items
      == [Token(DoubleQuoted, "\"a\\\"b\"")]
  {
    EscapeInQuotes();
    var c2 := Config("\"a\\\"b\"", 3, 0, 1, Some(ScanDoubleQuoted), Emitter([], Error, []), true);
    var c3 := Config("\"a\\\"b\"", 4, 0, 1, None, Emitter([], Error, []), true);
    assert StepOf(c2, AfterBackslash) == (c3, Some(ScanDoubleQuoted));
    QuotedItemAtEnd(c3, AfterBackslash);
    assert c3.bytes[0..] == "\"a\\\"b\"";
  }

  /** `||` is queued as `or`, and the newline after it is dropped. */
  lemma OrThenNewline()
    ensures RunFrom(Fresh("||\n"), Some(SkipWhitespace), SkipWhitespace).0.out.items
      == [Token(OrF, "or")]
  {
    FirstToken("||\n");
    var c1 := Config("||\n", 1, 0, 1, None, Emitter([], Error, []), true);
    assert c1.bytes[0..2] == "||";
    OperatorRenamed(c1.out, OrF, "||");
    var e := Emitter([Token(OrF, "or")], OrF, []);
    assert Emission.Emit(c1.out, OrF, "||") == e;
    var c2 := Config("||\n", 2, 2, 1, None, e, true);
    assert StepOf(c1, AfterPipe) == (c2, Some(SkipWhitespace));
    NewlineDroppedAtEnd(c2, AfterPipe);
  }

  /** afterBang at a pipe character consumes it and enters afterPipe. */
  lemma BangThenPipe()
    ensures StepOf(Config("!||\n", 1, 0, 1, None, Emitter([], Error, []), true), AfterBang)
      == (Config("!||\n", 2, 0, 1, None, Emitter([], Error, []), true), Some(AfterPipe))
  {
  }

  /** afterPipe after `!|` leaves the second pipe character unread and
      queues the stderr pipe. */
  lemma StderrPipe()
    ensures StepOf(Config("!||\n", 2, 0, 1, None, Emitter([], Error, []), true), AfterPipe)
      == (Config("!||\n", 2, 2, 1, None, Emitter([Token(Pipe, "_pipe_stderr_")], Pipe, []), true),
          Some(SkipWhitespace))
  {
    var c2 := Config("!||\n", 2, 0, 1, None, Emitter([], Error, []), true);
    assert c2.bytes[0..2] == "!|";
    OperatorRenamed(c2.out, Pipe, "!|");
    assert Emission.Emit(c2.out, Pipe, "!|") == Emitter([Token(Pipe, "_pipe_stderr_")], Pipe, []);
  }

  /** `!|` is the stderr pipe even when another pipe character follows
      it: the second `|` is left for the next item. */
  lemma BangPipe()
    ensures RunFrom(Fresh("!||\n"), Some(SkipWhitespace), SkipWhitespace)
      == RunFrom(Config("!||\n", 2, 2, 1, None, Emitter([Token(Pipe, "_pipe_stderr_")], Pipe, []), true),
                 Some(SkipWhitespace), AfterPipe)
  {
    FirstToken("!||\n");
    var c1 := Config("!||\n", 1, 0, 1, None, Emitter([], Error, []), true);
    var c2 := Config("!||\n", 2, 0, 1, None, Emitter([], Error, []), true);
    BangThenPipe();
    RunStep(c1, AfterBang, SkipWhitespace);
    StderrPipe();
    RunStep(c2, AfterPipe, AfterBang);
  }

  /** After `!`, a second pipe character does not make an or: `!||` is the
      stderr pipe followed by a lone stdout pipe, and the newline after a
      pipe is dropped. */
  lemma BangPipePipe()
    ensures RunFrom(Fresh("!||\n"), Some(SkipWhitespace), SkipWhitespace).0.out.items
      == [Token(Pipe, "_pipe_stderr_"), Token(Pipe, "_pipe_stdout_")]
  {
    BangPipe();
    var e1 := Emitter([Token(Pipe, "_pipe_stderr_")], Pipe, []);
    var c3 := Config("!||\n", 2, 2, 1, None, e1, true);
    TokenHere(c3, AfterPipe);
    var c4 := Config("!||\n", 3, 2, 1, None, e1, true);
    assert c4.bytes[2..3] == "|";
    OperatorRenamed(e1, Pipe, "|");
    var e2 := Emitter([Token(Pipe, "_pipe_stderr_"), Token(Pipe, "_pipe_stdout_")], Pipe, []);
    assert Emission.Emit(e1, Pipe, "|") == e2;
    var c5 := Config("!||\n", 3, 3, 1, None, e2, true);
    assert StepOf(c4, AfterPipe) == (c5, Some(SkipWhitespace));
    NewlineDroppedAtEnd(c5, AfterPipe);
  }

  /** `!>>` appends standard error to a file; the newline after a
      redirection is dropped. */
  lemma BangAppend()
    ensures RunFrom(Fresh("!>>\n"), Some(SkipWhitespace), SkipWhitespace).0.out.items
      == [Token(Redirect, "_append_stderr_")]
  {
    FirstToken("!>>\n");
    var c1 := Config("!>>\n", 1, 0, 1, None, Emitter([], Error, []), true);
    var c2 := Config("!>>\n", 2, 0, 1, None, Emitter([], Error, []), true);
    assert StepOf(c1, AfterBang) == (c2, Some(AfterBangGreater));
    assert c2.bytes[0..3] == "!>>";
    OperatorRenamed(c2.out, Redirect, "!>>");
    var e := Emitter([Token(Redirect, "_append_stderr_")], Redirect, []);
    assert Emission.Emit(c2.out, Redirect, "!>>") == e;
    var c3 := Config("!>>\n", 3, 3, 1, None, e, true);
    assert StepOf(c2, AfterBangGreater) == (c3, Some(SkipWhitespace));
    NewlineDroppedAtEnd(c3, AfterBangGreater);
  }

  /** A symbol that reaches the end of the buffer is not emitted: scanSymbol
      halts with the item still open, waiting for more input. */
  lemma SymbolAtEndWaits()
    ensures var r := RunFrom(Fresh("foo"), Some(SkipWhitespace), SkipWhitespace);
      r.0.out.items == [] && r.1 == ScanSymbol && r.0.start == 0
  {
    FirstToken("foo");
    var c1 := Config("foo", 1, 0, 1, None, Emitter([], Error, []), true);
    assert NextStop(c1.bytes, 1, SymbolEnd) == 3;
    assert StepOf(c1, ScanSymbol) == (c1.(index := 3), None);
  }

  /** A symbol ended by a newline is emitted, and so is the newline; the
      symbol is recorded as the first word. */
  lemma SymbolThenNewline(after: Kind, first: seq<string>)
    ensures var r := RunFrom(Config("foo\n", 0, 0, 0, None, Emitter([], after, first), true),
                             Some(SkipWhitespace), SkipWhitespace);
      && r.0.out.items == [Token(Symbol, "foo"), Token(Punct('\n'), "\n")]
      && r.0.out.first == UpdateFirst(first, Token(Symbol, "foo"))
  {
    var c0 := Config("foo\n", 0, 0, 0, None, Emitter([], after, first), true);
    TokenHere(c0, SkipWhitespace);
    assert Entry('f') == ScanSymbol;
    SymbolFoo(after, first);
    var e := Emitter([Token(Symbol, "foo")], Symbol, UpdateFirst(first, Token(Symbol, "foo")));
    NewlineKeptAtEnd(Config("foo\n", 3, 3, 1, None, e, true), ScanSymbol);
  }

  /** scanSymbol over `foo` stops at the newline and emits the symbol. */
  lemma SymbolFoo(after: Kind, first: seq<string>)
    ensures StepOf(Config("foo\n", 1, 0, 1, None, Emitter([], after, first), true), ScanSymbol)
      == (Config("foo\n", 3, 3, 1, None,
                 Emitter([Token(Symbol, "foo")], Symbol, UpdateFirst(first, Token(Symbol, "foo"))), true),
          Some(SkipWhitespace))
  {
    var c1 := Config("foo\n", 1, 0, 1, None, Emitter([], after, first), true);
    assert NextStop(c1.bytes, 1, SymbolEnd) == 3;
    assert c1.bytes[0..3] == "foo";
    EmitFoo(after, first);
  }

  /** The symbol `foo` is queued as it is and becomes the first word. */
  lemma EmitFoo(after: Kind, first: seq<string>)
    ensures Emission.Emit(Emitter([], after, first), Symbol, "foo")
      == Emitter([Token(Symbol, "foo")], Symbol, UpdateFirst(first, Token(Symbol, "foo")))
  {
    assert !HasBrace("foo");
  }

  /** Text, read from index `i`, made only of blanks, newlines and
      comments, each comment running from `#` to the end of its line. */
  ghost predicate CommentsAndBlanks(s: string, i: nat)
    requires i <= |s|
    decreases |s| - i
  {
    if i == |s| then true
    else if s[i] == '#' then
      var k := NextStop(s, i, LineEnd);
      k == |s| || CommentsAndBlanks(s, k + 1)
    else (IsBlank(s[i]) || s[i] == '\n') && CommentsAndBlanks(s, i + 1)
  }

  /** Over such text skipWhitespace passes only blanks and newlines, and
      stops at the end or at the `#` of a comment. */
  lemma {:induction false} BlanksBeforeComment(s: string, i: nat)
    requires i <= |s| && CommentsAndBlanks(s, i)
    ensures var j := NextStop(s, i, TokenStart);
      && (forall k | i <= k < j :: IsBlank(s[k]) || s[k] == '\n')
      && (j < |s| ==> s[j] == '#' && CommentsAndBlanks(s, j))
    decreases |s| - i
  {
    if i < |s| && s[i] != '#' {
      BlanksBeforeComment(s, i + 1);
    }
  }

  /** `after` extends `before` with newline items only. */
  ghost predicate AppendsNewlines(before: seq<Token>, after: seq<Token>) {
    before <= after && forall k | |before| <= k < |after| :: after[k].kind == Punct('\n')
  }

  lemma AppendsNewlinesTrans(a: seq<Token>, b: seq<Token>, c: seq<Token>)
    requires AppendsNewlines(a, b) && AppendsNewlines(b, c)
    ensures AppendsNewlines(a, c)
  {
    forall k | |a| <= k < |c| ensures c[k].kind == Punct('\n') {
      if k < |b| {
        assert c[k] == b[k];
      }
    }
  }

  /** The skipWhitespace step over such text queues only newline items,
      and stops at the end or enters skipComment just after a `#`. */
  lemma BlanksStep(c: Config)
    requires c.Bounded() && c.alive && CommentsAndBlanks(c.bytes, c.index)
    ensures var r := StepOf(c, SkipWhitespace);
      && AppendsNewlines(c.out.items, r.0.out.items) && r.0.bytes == c.bytes && r.0.alive
      && (r.1.None? ==> r.0.index == |c.bytes|)
      && (r.1.Some? ==>
            (&& r.1 == Some(SkipComment) && c.index < r.0.index <= |c.bytes|
             && c.bytes[r.0.index - 1] == '#' && CommentsAndBlanks(c.bytes, r.0.index - 1)))
  {
    PassedNewlines(c);
    WhitespaceShape(c);
  }

  /** The shape of a live skipWhitespace step that stops at the end of the
      buffer or at a `#`. */
  lemma WhitespaceShape(c: Config)
    requires c.Bounded() && c.alive
    requires var j := NextStop(c.bytes, c.index, TokenStart); j < |c.bytes| ==> c.bytes[j] == '#'
    ensures var j := NextStop(c.bytes, c.index, TokenStart);
      var e := EmitSingles(c.out, c.bytes[c.index..j]);
      StepOf(c, SkipWhitespace)
        == if j < |c.bytes| then (c.(out := e, start := j, index := j + 1, width := 1), Some(SkipComment))
           else (c.(out := e, start := j, index := j, width := 0), None)
  {
    assert Entry('#') == SkipComment;
  }

  /** What skipWhitespace passes over such text queues only newline items,
      and it stops at the end or at the `#` of a comment. */
  lemma PassedNewlines(c: Config)
    requires c.Bounded() && CommentsAndBlanks(c.bytes, c.index)
    ensures var j := NextStop(c.bytes, c.index, TokenStart);
      && AppendsNewlines(c.out.items, EmitSingles(c.out, c.bytes[c.index..j]).items)
      && (j < |c.bytes| ==> c.bytes[j] == '#' && CommentsAndBlanks(c.bytes, j))
  {
    var j := NextStop(c.bytes, c.index, TokenStart);
    BlanksBeforeComment(c.bytes, c.index);
    var passed := c.bytes[c.index..j];
    forall k | 0 <= k < |passed| ensures IsBlank(passed[k]) || passed[k] == '\n' {
      assert passed[k] == c.bytes[c.index + k];
    }
    BlankLinesEmitNewlines(c.out, passed);
  }

  /** A comment in blank-and-comment input runs to the end of the input or
      to a newline after which the input is blank-and-comment again. */
  lemma CommentAhead(s: string, i: nat)
    requires 0 < i <= |s| && s[i - 1] == '#' && CommentsAndBlanks(s, i - 1)
    ensures var k := NextStop(s, i, LineEnd);
      k == |s| || (s[k] == '\n' && CommentsAndBlanks(s, k + 1))
  {
    assert NextStop(s, i - 1, LineEnd) == NextStop(s, i, LineEnd);
  }

  /** Emitting a newline appends at most a newline item. */
  lemma NewlineEmitted(d: Config)
    requires d.Bounded()
    ensures AppendsNewlines(d.out.items, EmitAt(d, Punct('\n')).out.items)
  {
    var e := EmitAt(d, Punct('\n'));
    if d.alive && !Suppressed(d.out.after, Punct('\n')) {
      var text := d.bytes[d.start..d.index];
      assert e.out.items == d.out.items + [MakeToken(Punct('\n'), text)];
    } else {
      assert e.out == d.out;
    }
  }

  /** The skipComment step queues at most the newline that ends the
      comment, and goes on after it. */
  lemma CommentStep(c: Config)
    requires c.Bounded() && 0 < c.index && c.bytes[c.index - 1] == '#'
    requires CommentsAndBlanks(c.bytes, c.index - 1)
    ensures var r := SkipCommentStep(c);
      && AppendsNewlines(c.out.items, r.0.out.items) && r.0.bytes == c.bytes && r.0.alive == c.alive
      && (r.1.None? ==> r.0.index == |c.bytes|)
      && (r.1.Some? ==>
            (&& r.1 == Some(SkipWhitespace) && c.index < r.0.index <= |c.bytes|
             && CommentsAndBlanks(c.bytes, r.0.index)))
  {
    var k := NextStop(c.bytes, c.index, LineEnd);
    CommentAhead(c.bytes, c.index);
    if k < |c.bytes| {
      NewlineEmitted(c.(index := k + 1, width := 1));
    }
  }

  /** The two skipping states step by their own functions. */
  lemma SkippingSteps(c: Config)
    requires c.Bounded()
    ensures StepOf(c, SkipWhitespace) == SkipWhitespaceStep(c)
    ensures StepOf(c, SkipComment) == SkipCommentStep(c)
  {
  }

  /** A live run takes one step of its state and goes on from there. */
  lemma RunStep(c: Config, s: State, last: State)
    requires c.Bounded() && c.alive
    ensures StepOf(c, s).0.Bounded()
    ensures RunFrom(c, Some(s), last) == RunFrom(StepOf(c, s).0, StepOf(c, s).1, s)
  {
    StepSound(c, s);
  }

  /** A run of skipWhitespace over blanks, newlines and comments queues
      nothing but newline items: a comment is queued as the newline that
      ends it. */
  lemma {:induction false} CommentsAndBlanksRun(c: Config, last: State)
    requires c.Bounded() && CommentsAndBlanks(c.bytes, c.index)
    ensures AppendsNewlines(c.out.items, RunFrom(c, Some(SkipWhitespace), last).0.out.items)
    decreases |c.bytes| - c.index, 1
  {
    if c.alive {
      BlanksStep(c);
      RunStep(c, SkipWhitespace, last);
      var r := StepOf(c, SkipWhitespace);
      var fin := RunFrom(r.0, r.1, SkipWhitespace);
      if r.1.Some? {
        CommentRun(r.0);
        AppendsNewlinesTrans(c.out.items, r.0.out.items, fin.0.out.items);
      } else {
        assert fin.0 == r.0;
      }
    }
  }

  /** The same from inside a comment. */
  lemma {:induction false} CommentRun(c: Config)
    requires c.Bounded() && 0 < c.index && c.bytes[c.index - 1] == '#'
    requires CommentsAndBlanks(c.bytes, c.index - 1)
    ensures AppendsNewlines(c.out.items, RunFrom(c, Some(SkipComment), SkipWhitespace).0.out.items)
    decreases |c.bytes| - c.index + 1, 0
  {
    if c.alive {
      CommentStep(c);
      SkippingSteps(c);
      var r := SkipCommentStep(c);
      RunStep(c, SkipComment, SkipWhitespace);
      var fin := RunFrom(r.0, r.1, SkipComment);
      assert RunFrom(c, Some(SkipComment), SkipWhitespace) == fin;
      if r.1.Some? {
        CommentsAndBlanksRun(r.0, SkipComment);
        AppendsNewlinesTrans(c.out.items, r.0.out.items, fin.0.out.items);
      } else {
        assert fin.0 == r.0;
      }
    }
  }

  /** A line of blanks and comments gives the parser only newline items. */
  lemma CommentLineYieldsNewlines(line: string)
    requires CommentsAndBlanks(line, 0)
    ensures forall t | t in RunFrom(Fresh(line), Some(SkipWhitespace), SkipWhitespace).0.out.items ::
      t.kind == Punct('\n')
  {
    CommentsAndBlanksRun(Fresh(line), SkipWhitespace);
  }
}
