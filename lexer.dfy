/** The lexer object: the fields of lexer.go's struct, one method per
    state function and cursor operation, the run loop, and the feed that
    trims the buffer and appends the next line. Each state method is tied
    to its step function in `Machine`. */
module Lexing {
  import opened Tokens
  import opened Scanning
  import opened Emission
  import opened Lines
  import opened Machine

  /** A character read from the buffer, or the end-of-input marker. */
  datatype Rune = Eof | Char(c: char)

  /** How the line supplier answered a request for more input. */
  datatype InputError =
    | NoError      // a line was read
    | Interrupted  // the user pressed Ctrl-C
    | Retry        // the platform reset the terminal's foreground group
    | Failed       // end of input or any other error

  datatype Reply = Reply(line: string, err: InputError)

  /** The number of replies that hand Lex a line to append. */
  function Fed(replies: seq<Reply>): (n: nat)
    ensures n <= |replies|
    decreases |replies|
  {
    if replies == [] then 0
    else
      var last := replies[|replies| - 1];
      Fed(replies[..|replies| - 1]) + (if last.err == NoError || last.err == Failed then 1 else 0)
  }

  /** What the machine becomes after one reply: an interrupt or a retry
      leaves it alone; a line (with a newline added after an error) is
      joined, appended and scanned. */
  ghost function Absorb(c: Config, st: State, reply: Reply): (r: (Config, State))
    requires c.Bounded()
    ensures r.0.Bounded()
  {
    if reply.err == Interrupted || reply.err == Retry then (c, st)
    else RunFrom(Appended(c, LineStep(reply.line, reply.err == Failed)), Some(st), st)
  }

  /** What the machine becomes after a run of replies, in order. */
  ghost function AbsorbAll(c: Config, st: State, replies: seq<Reply>): (r: (Config, State))
    requires c.Bounded()
    ensures r.0.Bounded()
    decreases |replies|
  {
    if replies == [] then (c, st)
    else
      var prev := AbsorbAll(c, st, replies[..|replies| - 1]);
      Absorb(prev.0, prev.1, replies[|replies| - 1])
  }

  /** Lex read on after every one of these replies: none was an interrupt
      or a failure, and the scan left the queue empty. */
  ghost predicate Quiet(c: Config, st: State, replies: seq<Reply>)
    requires c.Bounded()
    decreases |replies|
  {
    replies == []
    || (&& Quiet(c, st, replies[..|replies| - 1])
        && replies[|replies| - 1].err != Interrupted && replies[|replies| - 1].err != Failed
        && AbsorbAll(c, st, replies).0.out.items == [])
  }

  /** The replies Lex read on after were neither interrupts nor failures:
      so of the `used` replies read, only the last can be an interrupt, and
      the supplier stays attached unless the last one failed. */
  lemma QuietReplies(c: Config, st: State, replies: seq<Reply>, used: nat, h: bool)
    requires c.Bounded() && 0 < used <= |replies| && Quiet(c, st, replies[..used - 1])
    ensures forall k | 0 <= k < used - 1 :: replies[k].err != Interrupted
    ensures (h && replies[used - 1].err != Failed) == (h && forall k | 0 <= k < used :: replies[k].err != Failed)
  {
    var init := replies[..used - 1];
    QuietStops(c, st, init);
    assert forall k | 0 <= k < used - 1 :: replies[k] == init[k];
  }

  /** No reply of a run was an interrupt or a failure. */
  predicate NoStops(replies: seq<Reply>) {
    forall k | 0 <= k < |replies| :: replies[k].err != Interrupted && replies[k].err != Failed
  }

  /** A quiet run has no stops. */
  lemma QuietStops(c: Config, st: State, replies: seq<Reply>)
    requires c.Bounded() && Quiet(c, st, replies)
    ensures NoStops(replies)
  {
    forall k | 0 <= k < |replies|
      ensures replies[k].err != Interrupted && replies[k].err != Failed
    {
      QuietAt(c, st, replies, k);
    }
  }

  /** Reply `k` of a quiet run was neither an interrupt nor a failure. */
  lemma {:induction false} QuietAt(c: Config, st: State, replies: seq<Reply>, k: nat)
    requires c.Bounded() && Quiet(c, st, replies) && k < |replies|
    ensures replies[k].err != Interrupted && replies[k].err != Failed
    decreases |replies|
  {
    QuietInit(c, st, replies);
    if k < |replies| - 1 {
      var init := replies[..|replies| - 1];
      QuietAt(c, st, init, k);
      assert init[k] == replies[k];
    }
  }

  /** The last of a run of quiet replies was neither an interrupt nor a
      failure, and the replies before it were quiet too. */
  lemma QuietInit(c: Config, st: State, replies: seq<Reply>)
    requires c.Bounded() && replies != [] && Quiet(c, st, replies)
    ensures Quiet(c, st, replies[..|replies| - 1])
    ensures replies[|replies| - 1].err != Interrupted && replies[|replies| - 1].err != Failed
  {
  }

  /** One more reply is absorbed after the ones before it. */
  lemma AbsorbNext(c: Config, st: State, replies: seq<Reply>, n: nat)
    requires c.Bounded() && n < |replies|
    ensures var prev := AbsorbAll(c, st, replies[..n]);
      AbsorbAll(c, st, replies[..n + 1]) == Absorb(prev.0, prev.1, replies[n])
    ensures Fed(replies[..n + 1]) == Fed(replies[..n]) + (if replies[n].err == NoError || replies[n].err == Failed then 1 else 0)
    ensures Quiet(c, st, replies[..n + 1]) <==>
      && Quiet(c, st, replies[..n]) && replies[n].err != Interrupted && replies[n].err != Failed
      && AbsorbAll(c, st, replies[..n + 1]).0.out.items == []
  {
    assert replies[..n + 1][..n] == replies[..n];
  }

  /** Passing one more character of skipWhitespace's loop extends the
      run of single-character punctuation by that character. */
  lemma PassedSingles(e0: Emitter, bytes: string, from: nat, i: nat, o: Emitter, o': Emitter)
    requires from <= i < |bytes| && o == EmitSingles(e0, bytes[from..i])
    requires o' == if IsSingle(bytes[i]) then Emission.Emit(o, Punct(bytes[i]), [bytes[i]]) else o
    ensures o' == EmitSingles(e0, bytes[from..i + 1])
  {
    SliceSnoc(bytes, from, i);
    EmitSinglesSnoc(e0, bytes[from..i], bytes[i]);
  }

  class Lexer {
    var after: Kind            // the previous emitted item type
    var alive: bool            // cleared to shut the scanner down
    var items: seq<Token>      // items emitted and not yet taken
    var saved: Option<State>   // the state an escape resumes
    var state: State           // the current action

    var bytes: string          // the buffer being scanned
    var index: int             // position in the buffer
    var start: int             // start of the item being scanned
    var width: int             // width of the last character read

    var first: seq<string>     // first word of each open group; [] when not tracking
    var name: string           // the name of what is being parsed
    var lines: int             // the number of lines read

    var hasInput: bool         // whether a line supplier is attached

    ghost predicate Bounded()
      reads this`bytes, this`index, this`start
    {
      0 <= start <= index <= |bytes|
    }

    ghost function Output(): Emitter
      reads this`items, this`after, this`first
    {
      Emitter(items, after, first)
    }

    /** The fields the state functions read and write, as a value. */
    ghost function Snap(): (c: Config)
      reads this`bytes, this`index, this`start, this`width, this`saved,
        this`items, this`after, this`first, this`alive
      ensures c.Bounded() == Bounded() && c.out == Output()
    {
      Config(bytes, index, start, width, saved, Output(), alive)
    }

    /** The invariant between steps: the buffer indices are in order, the
        current state's context holds, and every queued item is well formed. */
    ghost predicate Valid()
      reads this`bytes, this`index, this`start, this`width, this`saved,
        this`items, this`after, this`first, this`alive, this`state
    {
      Bounded() && Entered(Snap(), state) && AllWellFormed(items)
    }

    /** The fields are those of `r` except the queue, and `t` is what Lex
        hands out from r's queue: its first item, which leaves the queue;
        nothing, or the interrupt sentinel, leaves the queue as it is. */
    ghost predicate Handed(r: (Config, State), t: Option<Token>)
      reads this
    {
      && Snap() == r.0.(out := r.0.out.(items := items)) && state == r.1
      && (t.Some? && t != Some(CtrlCPressed) ==>
            r.0.out.items != [] && t.value == r.0.out.items[0] && items == r.0.out.items[1..])
      && (t.None? || t == Some(CtrlCPressed) ==> items == r.0.out.items)
    }

    constructor (name: string, lines: int, hasInput: bool)
      ensures Valid() && Snap() == Fresh("")
      ensures alive && items == [] && state == State.SkipWhitespace && saved == None
      ensures bytes == [] && index == 0 && start == 0 && width == 0
      ensures first == [] && after == Error
      ensures this.name == name && this.lines == lines && this.hasInput == hasInput
    {
      after := Error;
      alive := true;
      items := [];
      saved := None;
      state := State.SkipWhitespace;
      bytes := [];
      index, start, width := 0, 0, 0;
      first := [];
      this.name := name;
      this.lines := lines;
      this.hasInput := hasInput;
    }

    /** A copy of every field, for a probe that must not disturb `l`. */
    constructor Copy(l: Lexer)
      requires l.Valid()
      ensures Valid()
      ensures after == l.after && alive == l.alive && items == l.items
      ensures saved == l.saved && state == l.state
      ensures bytes == l.bytes && index == l.index && start == l.start && width == l.width
      ensures first == l.first && name == l.name && lines == l.lines && hasInput == l.hasInput
    {
      after, alive, items, saved, state := l.after, l.alive, l.items, l.saved, l.state;
      bytes, index, start, width := l.bytes, l.index, l.start, l.width;
      first, name, lines, hasInput := l.first, l.name, l.lines, l.hasInput;
    }

    /* The cursor. */

    /** The character under the cursor and its width, without consuming it. */
    function Peek(): (p: (Rune, int))
      reads this`bytes, this`index
      requires 0 <= index
      ensures p.0 == Eof <==> index >= |bytes|
      ensures p.0 == Eof ==> p.1 == 0
      ensures p.0 != Eof ==> p.0 == Char(bytes[index]) && p.1 == 1
    {
      if index < |bytes| then (Char(bytes[index]), 1) else (Eof, 0)
    }

    method Skip(w: int)
      modifies this`width, this`index
      ensures width == w && index == old(index) + w
    {
      width := w;
      index := index + width;
    }

    method Next() returns (r: Rune)
      requires 0 <= index
      modifies this`width, this`index
      ensures old(index) >= |bytes| ==> r == Eof && width == 0 && index == old(index)
      ensures old(index) < |bytes| ==> r == Char(bytes[old(index)]) && width == 1 && index == old(index) + 1
    {
      var (c, w) := Peek();
      Skip(w);
      r := c;
    }

    method Resume() returns (s: Option<State>)
      modifies this`saved
      ensures s == old(saved) && saved == None
    {
      s := saved;
      saved := None;
    }

    /* The buffer. */

    /** Drops the part of the buffer before the current item. */
    method ResetBuffer()
      requires Bounded()
      modifies this`bytes, this`index, this`start
      ensures Bounded() && start == 0
      ensures bytes == old(bytes[start..]) && index == old(index - start)
      ensures old(start) >= |old(bytes)| ==> bytes == [] && index == 0
    {
      ghost var kept := bytes[start..];
      if start >= |bytes| {
        bytes := [];
        index := 0;
      } else {
        bytes := bytes[start..];
        index := index - start;
      }
      start := 0;
      assert bytes == kept;
    }

    /** Appends a line after trimming the buffer to the unfinished item,
        and starts a new queue. */
    method Refill(line: string)
      requires Valid()
      modifies this`bytes, this`index, this`start, this`items
      ensures Snap() == Appended(old(Snap()), line) && Valid()
    {
      ghost var c0 := Snap();
      AppendedEntered(c0, line, state);
      ResetBuffer();
      ghost var kept := bytes;
      if bytes != [] {
        bytes := bytes + line;
      } else {
        bytes := line;
      }
      assert bytes == kept + line;
      items := [];
      assert Snap() == Appended(c0, line);
      assert Entered(Snap(), state) && AllWellFormed(items);
    }

    /** Appends a line after trimming, starts a new queue, and runs the
        machine over the result. */
    method Scan(line: string)
      requires Valid()
      modifies this`bytes, this`index, this`start, this`width, this`after, this`first,
        this`items, this`saved, this`state
      ensures (Snap(), state) == RunFrom(Appended(old(Snap()), line), Some(old(state)), old(state))
      ensures Valid() && (alive ==> index == |bytes|)
      ensures old(first) != [] ==> first != []
    {
      Refill(line);
      Run();
    }

    /* Emission. */

    /** emit: queue the item scanned since `start` as `EmitAt` says. */
    method Emit(kind: Kind)
      requires Bounded()
      modifies this`start, this`after, this`first, this`items
      ensures Snap() == EmitAt(old(Snap()), kind)
    {
      if !alive {
        return;
      }
      if Suppressed(after, kind) {
        return;
      }
      var t := MakeToken(kind, bytes[start..index]);
      start := index;
      TrackFirstWord(t);
      after := t.kind;
      items := items + [t];
    }

    /** The first-word switch at the end of emit. */
    method TrackFirstWord(t: Token)
      modifies this`first
      ensures first == UpdateFirst(old(first), t)
    {
      if first != [] {
        if t.kind == Symbol {
          if first[0] == "" {
            first := [t.text] + first[1..];
          }
        } else if t.kind == Punct('(') || t.kind == Punct('{') {
          first := [""] + first;
        } else if t.kind == Punct(')') || t.kind == Punct('}') {
          if |first| > 1 {
            first := first[1..];
          }
        } else if t.kind == Punct(':') {
          first := [""] + first[1..];
        }
      }
    }

    /** Queues an error item and halts (lexer.go's `error`). */
    method ReportError(msg: string) returns (next: Option<State>)
      modifies this`items
      ensures items == old(items) + [Token(Error, msg)] && next == None
    {
      items := items + [Token(Error, msg)];
      next := None;
    }

    /* The states. Each one leaves the fields as its step function says. */

    method AfterAmpersand() returns (next: Option<State>)
      requires Bounded()
      modifies this`index, this`width, this`start, this`after, this`first, this`items
      ensures (Snap(), next) == AfterAmpersandStep(old(Snap()))
    {
      ghost var c0 := Snap();
      var (r, w) := Peek();
      var t := Background;
      match r {
        case Eof =>
          return None;
        case Char(c) =>
          if c == '&' {
            Skip(w);
            t := AndF;
          }
      }
      assert AfterAmpersandStep(c0) == (EmitAt(Snap(), t), Some(State.SkipWhitespace));
      Emit(t);
      next := Some(State.SkipWhitespace);
    }

    method AfterBackslash() returns (next: Option<State>)
      requires Bounded()
      modifies this`index, this`width, this`saved
      ensures (Snap(), next) == AfterBackslashStep(old(Snap()))
    {
      var r := Next();
      if r == Eof {
        return None;
      }
      next := Resume();
    }

    method AfterBang() returns (next: Option<State>)
      requires Bounded()
      modifies this`index, this`width
      ensures (Snap(), next) == AfterBangStep(old(Snap()))
    {
      var (r, w) := Peek();
      match r {
        case Eof =>
          return None;
        case Char(c) =>
          if c == '"' {
            Skip(w);
            next := Some(State.ScanBangString);
          } else if c == '>' {
            Skip(w);
            next := Some(State.AfterBangGreater);
          } else if c == '|' {
            Skip(w);
            next := Some(State.AfterPipe);
          } else {
            next := Some(State.ScanSymbol);
          }
      }
    }

    method AfterBangGreater() returns (next: Option<State>)
      requires Bounded()
      modifies this`index, this`width, this`start, this`after, this`first, this`items
      ensures (Snap(), next) == AfterBangGreaterStep(old(Snap()))
    {
      ghost var c0 := Snap();
      var (r, w) := Peek();
      match r {
        case Eof =>
          return None;
        case Char(c) =>
          if c == '>' {
            Skip(w);
          }
      }
      assert AfterBangGreaterStep(c0) == (EmitAt(Snap(), Redirect), Some(State.SkipWhitespace));
      Emit(Redirect);
      next := Some(State.SkipWhitespace);
    }

    method AfterColon() returns (next: Option<State>)
      requires Bounded()
      modifies this`index, this`width, this`start, this`after, this`first, this`items
      ensures (Snap(), next) == AfterColonStep(old(Snap()))
    {
      ghost var c0 := Snap();
      var (r, w) := Peek();
      var t := Punct(':');
      match r {
        case Eof =>
          return None;
        case Char(c) =>
          if c == ':' {
            Skip(w);
            t := Cons;
          }
      }
      assert AfterColonStep(c0) == (EmitAt(Snap(), t), Some(State.SkipWhitespace));
      Emit(t);
      next := Some(State.SkipWhitespace);
    }

    method AfterGreaterThan() returns (next: Option<State>)
      requires Bounded()
      modifies this`index, this`width, this`start, this`after, this`first, this`items
      ensures (Snap(), next) == AfterGreaterThanStep(old(Snap()))
    {
      ghost var c0 := Snap();
      var (r, w) := Peek();
      var t := Redirect;
      match r {
        case Eof =>
          return None;
        case Char(c) =>
          if c == '(' {
            Skip(w);
            t := Substitute;
          } else if c == '>' {
            Skip(w);
          }
      }
      assert AfterGreaterThanStep(c0) == (EmitAt(Snap(), t), Some(State.SkipWhitespace));
      Emit(t);
      next := Some(State.SkipWhitespace);
    }

    method AfterLessThan() returns (next: Option<State>)
      requires Bounded()
      modifies this`index, this`width, this`start, this`after, this`first, this`items
      ensures (Snap(), next) == AfterLessThanStep(old(Snap()))
    {
      ghost var c0 := Snap();
      var (r, w) := Peek();
      var t := Redirect;
      match r {
        case Eof =>
          return None;
        case Char(c) =>
          if c == '(' {
            Skip(w);
            t := Substitute;
          }
      }
      assert AfterLessThanStep(c0) == (EmitAt(Snap(), t), Some(State.SkipWhitespace));
      Emit(t);
      next := Some(State.SkipWhitespace);
    }

    method AfterPipe() returns (next: Option<State>)
      requires Bounded()
      modifies this`index, this`width, this`start, this`after, this`first, this`items
      ensures (Snap(), next) == AfterPipeStep(old(Snap()))
    {
      ghost var c0 := Snap();
      var (r, w) := Peek();
      var t := Pipe;
      match r {
        case Eof =>
          return None;
        case Char(c) =>
          if c == '+' {
            Skip(w);
          } else if c == '|' {
            if bytes[start] != '!' {
              t := OrF;
              Skip(w);
            }
          }
      }
      assert AfterPipeStep(c0) == (EmitAt(Snap(), t), Some(State.SkipWhitespace));
      Emit(t);
      next := Some(State.SkipWhitespace);
    }

    /** The loop the scanning states share: read on while the character
        under the cursor does not stop the scan. */
    method SkipUntil(stop: StopSet)
      requires Bounded()
      modifies this`index, this`width
      ensures Bounded() && index == NextStop(bytes, old(index), stop)
      ensures width == if index > old(index) then 1 else old(width)
    {
      while true
        invariant Bounded() && old(index) <= index
        invariant forall k | old(index) <= k < index :: !Stops(stop, bytes[k])
        invariant width == if index > old(index) then 1 else old(width)
        decreases |bytes| - index
      {
        var (r, w) := Peek();
        match r {
          case Eof =>
            NextStopAt(bytes, old(index), index, stop);
            return;
          case Char(c) =>
            if Stops(stop, c) {
              NextStopAt(bytes, old(index), index, stop);
              return;
            }
            Skip(w);
        }
      }
    }

    /** Reads a `!"..."` string up to its closing quote, or up to an escape,
        which resumes this state. */
    method ScanBangString() returns (next: Option<State>)
      requires Bounded()
      modifies this`index, this`width, this`start, this`after, this`first, this`items, this`saved
      ensures (Snap(), next) == ScanQuotedStep(old(Snap()), BangString, State.ScanBangString)
    {
      SkipUntil(QuoteEnd);
      var r := Next();
      if r == Eof {
        return None;
      }
      if r.c == '"' {
        Emit(BangString);
        next := Some(State.SkipWhitespace);
      } else {
        saved := Some(State.ScanBangString);
        next := Some(State.AfterBackslash);
      }
    }

    /** Reads a double-quoted string up to its closing quote, or up to an
        escape, which resumes this state. */
    method ScanDoubleQuoted() returns (next: Option<State>)
      requires Bounded()
      modifies this`index, this`width, this`start, this`after, this`first, this`items, this`saved
      ensures (Snap(), next) == ScanQuotedStep(old(Snap()), DoubleQuoted, State.ScanDoubleQuoted)
    {
      SkipUntil(QuoteEnd);
      var r := Next();
      if r == Eof {
        return None;
      }
      if r.c == '"' {
        Emit(DoubleQuoted);
        next := Some(State.SkipWhitespace);
      } else {
        saved := Some(State.ScanDoubleQuoted);
        next := Some(State.AfterBackslash);
      }
    }

    /** Reads up to the closing quote; a backslash is ordinary text here. */
    method ScanSingleQuoted() returns (next: Option<State>)
      requires Bounded()
      modifies this`index, this`width, this`start, this`after, this`first, this`items
      ensures (Snap(), next) == ScanSingleQuotedStep(old(Snap()))
    {
      SkipUntil(SingleQuoteEnd);
      var r := Next();
      if r == Eof {
        return None;
      }
      Emit(SingleQuoted);
      next := Some(State.SkipWhitespace);
    }

    /** Reads a symbol up to a delimiter, which it leaves unread, or up to an
        escape, which resumes the symbol. */
    method ScanSymbol() returns (next: Option<State>)
      requires Bounded()
      modifies this`index, this`width, this`start, this`after, this`first, this`items, this`saved
      ensures (Snap(), next) == ScanSymbolStep(old(Snap()))
    {
      SkipUntil(SymbolEnd);
      next := EndSymbol();
    }

    /** What scanSymbol does at the character that stopped its scan. */
    method EndSymbol() returns (next: Option<State>)
      requires Bounded()
      modifies this`index, this`width, this`start, this`after, this`first, this`items, this`saved
      ensures (Snap(), next) == EndSymbolStep(old(Snap()))
    {
      var (r, w) := Peek();
      if r == Eof {
        next := None;
      } else if r.c == '\\' {
        Skip(w);
        saved := Some(State.ScanSymbol);
        next := Some(State.AfterBackslash);
      } else {
        Emit(Symbol);
        next := Some(State.SkipWhitespace);
      }
    }

    /** Reads a comment through its newline and emits that newline. */
    method SkipComment() returns (next: Option<State>)
      requires Bounded()
      modifies this`index, this`width, this`start, this`after, this`first, this`items
      ensures (Snap(), next) == SkipCommentStep(old(Snap()))
    {
      ghost var c0 := Snap();
      ghost var j := NextStop(bytes, index, LineEnd);
      SkipUntil(LineEnd);
      assert index == j && Output() == c0.out;
      var r := Next();
      if r == Eof {
        assert j == |c0.bytes|;
        assert SkipCommentStep(c0) == (c0.(index := j, width := 0), None);
        assert Snap() == c0.(index := j, width := 0);
        return None;
      }
      assert j < |c0.bytes| && index == j + 1 && width == 1;
      ghost var d := c0.(index := j + 1, width := 1);
      assert SkipCommentStep(c0) == (EmitAt(d, Punct('\n')), Some(State.SkipWhitespace));
      assert Snap() == d;
      Emit(Punct('\n'));
      next := Some(State.SkipWhitespace);
    }

    /** The loop of skipWhitespace: drops blanks and emits single-character
        punctuation up to the first character that starts a token. */
    method SkipBlanks()
      requires Bounded()
      modifies this`index, this`width, this`start, this`after, this`first, this`items
      ensures Bounded() && index == NextStop(bytes, old(index), TokenStart)
      ensures Output() == (if alive then EmitSingles(old(Output()), bytes[old(index)..index]) else old(Output()))
    {
      ghost var e0, from := Output(), index;
      ghost var stop := NextStop(bytes, index, TokenStart);
      assert bytes[from..index] == [];
      while true
        invariant Blanking(e0, from, stop)
        decreases |bytes| - index
      {
        var (r, w) := Peek();
        if r == Eof || Stops(TokenStart, r.c) {
          return;
        }
        Blank(r.c, e0, from, stop);
      }
    }

    /** What holds in skipWhitespace's loop, begun at `from` on the output
        `e0`: the scan still stops at `stop`, and the characters passed have
        emitted their single-character punctuation. */
    ghost predicate Blanking(e0: Emitter, from: nat, stop: nat)
      reads this`bytes, this`index, this`start, this`items, this`after, this`first, this`alive
    {
      && Bounded() && from <= index && NextStop(bytes, index, TokenStart) == stop
      && Output() == (if alive then EmitSingles(e0, bytes[from..index]) else e0)
    }

    /** One round of skipWhitespace's loop over a character that does not
        start a token. */
    method Blank(c: char, ghost e0: Emitter, ghost from: nat, ghost stop: nat)
      requires Blanking(e0, from, stop) && index < |bytes| && bytes[index] == c && !Stops(TokenStart, c)
      modifies this`index, this`width, this`start, this`after, this`first, this`items
      ensures Blanking(e0, from, stop) && index == old(index) + 1
    {
      assert NextStop(bytes, index + 1, TokenStart) == NextStop(bytes, index, TokenStart);
      ghost var o := Output();
      PassBlank(c);
      if alive {
        PassedSingles(e0, bytes, from, index - 1, o, Output());
      }
    }

    /** One character of skipWhitespace's loop that does not start a token:
        a single-character punctuation is emitted on its own. */
    method PassBlank(c: char)
      requires Bounded() && index < |bytes| && bytes[index] == c
      modifies this`index, this`width, this`start, this`after, this`first, this`items
      ensures Bounded() && index == old(index) + 1
      ensures Output() == if alive && IsSingle(c) then Emission.Emit(old(Output()), Punct(c), [c]) else old(Output())
    {
      start := index;
      Skip(1);
      if IsSingle(c) {
        assert bytes[start..index] == [c];
        Emit(Punct(c));
      }
    }

    /** Drops blanks, emits single-character punctuation, and hands the
        first other character to the state that scans it. */
    method SkipWhitespace() returns (next: Option<State>)
      requires Bounded()
      modifies this`index, this`width, this`start, this`after, this`first, this`items, this`saved
      ensures (Snap(), next) == SkipWhitespaceStep(old(Snap()))
    {
      ghost var c0 := Snap();
      SkipBlanks();
      start := index;
      ghost var d := c0.(out := Output(), start := index);
      assert d.out == if c0.alive then EmitSingles(c0.out, c0.bytes[c0.index..index]) else c0.out;
      var r := Next();
      match r {
        case Eof =>
          assert Snap() == d.(index := d.start, width := 0);
          return None;
        case Char(c) =>
          if c == '\\' {
            saved := Some(State.ScanSymbol);
          }
          assert Snap() == d.(index := d.start + 1, width := 1, saved := saved);
          return Some(Entry(c));
      }
    }

    /* The run loop. */

    /** Runs one state: what `state.f(l)` does in the run loop. */
    method Step(s: State) returns (next: Option<State>)
      requires Bounded()
      modifies this`index, this`width, this`start, this`after, this`first, this`items, this`saved
      ensures (Snap(), next) == StepOf(old(Snap()), s)
    {
      match s {
        case AfterAmpersand => next := AfterAmpersand();
        case AfterBackslash => next := AfterBackslash();
        case AfterBang => next := AfterBang();
        case AfterBangGreater => next := AfterBangGreater();
        case AfterColon => next := AfterColon();
        case AfterGreaterThan => next := AfterGreaterThan();
        case AfterLessThan => next := AfterLessThan();
        case AfterPipe => next := AfterPipe();
        case ScanBangString => next := ScanBangString();
        case ScanDoubleQuoted => next := ScanDoubleQuoted();
        case ScanSingleQuoted => next := ScanSingleQuoted();
        case ScanSymbol => next := ScanSymbol();
        case SkipComment => next := SkipComment();
        case SkipWhitespace => next := SkipWhitespace();
      }
    }

    /** Steps the machine until a state halts at the end of the buffer (or
        the scanner has been shut down). */
    method Run()
      requires Valid()
      modifies this`index, this`width, this`start, this`after, this`first, this`items,
        this`saved, this`state
      ensures (Snap(), state) == RunFrom(old(Snap()), Some(old(state)), old(state))
      ensures Valid() && (alive ==> index == |bytes|)
      ensures old(items) <= items && (old(first) != [] ==> first != [])
    {
      RunKeeps(Snap(), Some(state), state);
      var st := Some(state);
      while alive && st.Some?
        invariant Bounded()
        invariant RunFrom(Snap(), st, state) == RunFrom(old(Snap()), Some(old(state)), old(state))
        decreases |bytes| - index, Rank(st)
      {
        StepSound(Snap(), st.value);
        state := st.value;
        st := Step(state);
      }
    }

    /* Items and input. */

    /** Takes the next emitted item; None once every item has been taken. */
    method Item() returns (t: Option<Token>)
      modifies this`items
      ensures old(items) == [] ==> t == None && items == []
      ensures old(items) != [] ==> t == Some(old(items)[0]) && items == old(items)[1..]
      ensures old(AllWellFormed(items)) ==> AllWellFormed(items) && (t.Some? ==> WellFormed(t.value))
      ensures old(Valid()) ==> Valid()
    {
      if items == [] {
        t := None;
      } else {
        if AllWellFormed(items) {
          WellFormedAt(items, 0);
          WellFormedTail(items);
        }
        t := Some(items[0]);
        items := items[1..];
      }
    }

    /** Counts, joins and appends one line from the supplier, then scans. */
    method Feed(line: string, failed: bool)
      requires Valid()
      modifies this`bytes, this`index, this`start, this`width, this`after, this`first,
        this`items, this`saved, this`state, this`lines, this`hasInput
      ensures (Snap(), state) == RunFrom(Appended(old(Snap()), LineStep(line, failed)), Some(old(state)), old(state))
      ensures Valid() && (alive ==> index == |bytes|)
      ensures old(first) != [] ==> first != []
      ensures lines == old(lines) + 1
      ensures hasInput == (old(hasInput) && !failed)
    {
      ghost var c0 := Snap();
      lines := lines + 1;
      var text := RemoveContinuations(line);
      if failed {
        text := text + "\n";
        hasInput := false;
      }
      assert text == LineStep(line, failed) && Snap() == c0;
      Scan(text);
    }

    /** The next item, asking the supplier (whose answers are `replies`, in
        order) for more lines while none is ready. */
    method Lex(replies: seq<Reply>) returns (t: Option<Token>, used: nat)
      requires Valid()
      modifies this`bytes, this`index, this`start, this`width, this`after, this`first,
        this`items, this`saved, this`state, this`lines, this`hasInput
      ensures Valid() && used <= |replies|
      ensures old(items) != [] ==> t == Some(old(items)[0]) && items == old(items)[1..] && used == 0
      ensures Handed(AbsorbAll(old(Snap()), old(state), replies[..used]), t)
      ensures used > 0 ==> old(hasInput) && Quiet(old(Snap()), old(state), replies[..used - 1])
      ensures t == Some(CtrlCPressed) <==> used > 0 && replies[used - 1].err == Interrupted
      ensures t.Some? ==> (Fatal(t.value) <==> used > 0 && replies[used - 1].err == Interrupted)
      ensures forall k | 0 <= k < used - 1 :: replies[k].err != Interrupted
      ensures t.Some? && t != Some(CtrlCPressed) ==> WellFormed(t.value)
      ensures t.None? ==> items == [] && (!hasInput || used == |replies|)
      ensures hasInput == (old(hasInput) && forall k | 0 <= k < used :: replies[k].err != Failed)
      ensures lines == old(lines) + Fed(replies[..used])
      ensures old(first) != [] ==> first != []
    {
      ghost var c0, s0 := Snap(), state;
      t := Item();
      used := 0;
      if t.None? {
        assert Snap() == c0;
        t, used := Await(replies);
        if used > 0 {
          QuietReplies(c0, s0, replies, used, old(hasInput));
        }
      } else {
        assert replies[..0] == [] && AbsorbAll(c0, s0, []) == (c0, s0);
        assert t != Some(CtrlCPressed) && Handed((c0, s0), t);
      }
    }

    /** The loop of Lex once the queue is empty: feed the supplier's lines
        until an item is ready, the supplier is gone or out of replies, or
        the user interrupts. */
    method Await(replies: seq<Reply>) returns (t: Option<Token>, used: nat)
      requires Valid() && items == []
      modifies this`bytes, this`index, this`start, this`width, this`after, this`first,
        this`items, this`saved, this`state, this`lines, this`hasInput
      ensures Valid() && used <= |replies|
      ensures Handed(AbsorbAll(old(Snap()), old(state), replies[..used]), t)
      ensures used > 0 ==> old(hasInput) && Quiet(old(Snap()), old(state), replies[..used - 1])
      ensures t == Some(CtrlCPressed) <==> used > 0 && replies[used - 1].err == Interrupted
      ensures t.Some? && t != Some(CtrlCPressed) ==> WellFormed(t.value)
      ensures t.None? ==> items == [] && (!hasInput || used == |replies|)
      ensures hasInput == (old(hasInput) && (used == 0 || replies[used - 1].err != Failed))
      ensures lines == old(lines) + Fed(replies[..used])
      ensures old(first) != [] ==> first != []
    {
      ghost var c0, s0 := Snap(), state;
      used := 0;
      t := None;
      assert AbsorbAll(c0, s0, replies[..0]) == (c0, s0);
      while hasInput && used < |replies| && t.None?
        invariant Reading(c0, s0, old(hasInput), old(lines), old(first) != [], replies, used, t)
        decreases |replies| - used
      {
        t, used := Round(c0, s0, old(hasInput), old(lines), old(first) != [], replies, used);
      }
    }

    /** What holds after Lex has read `used` of the replies from the
        machine `(c0, s0)`, a supplier `h0`, a line count `l0` and first
        words tracked when `f0`, with `t` the item in hand (if any). */
    ghost predicate Reading(c0: Config, s0: State, h0: bool, l0: int, f0: bool,
                            replies: seq<Reply>, used: nat, t: Option<Token>)
      reads this
      requires c0.Bounded()
    {
      && Valid() && used <= |replies|
      && Handed(AbsorbAll(c0, s0, replies[..used]), t)
      && (used > 0 ==> h0 && Quiet(c0, s0, replies[..used - 1]))
      && (t.None? ==> items == [])
      && (t.None? && hasInput ==> Quiet(c0, s0, replies[..used]))
      && (t == Some(CtrlCPressed) <==> used > 0 && replies[used - 1].err == Interrupted)
      && (t.Some? && t != Some(CtrlCPressed) ==> WellFormed(t.value))
      && hasInput == (h0 && (used == 0 || replies[used - 1].err != Failed))
      && lines == l0 + Fed(replies[..used])
      && (f0 ==> first != [])
    }

    /** One round of Await's loop: read the next reply. */
    method Round(ghost c0: Config, ghost s0: State, ghost h0: bool, ghost l0: int, ghost f0: bool,
                 replies: seq<Reply>, used: nat) returns (t: Option<Token>, used': nat)
      requires c0.Bounded() && Reading(c0, s0, h0, l0, f0, replies, used, None)
      requires hasInput && used < |replies|
      modifies this`bytes, this`index, this`start, this`width, this`after, this`first,
        this`items, this`saved, this`state, this`lines, this`hasInput
      ensures used' == used + 1 && Reading(c0, s0, h0, l0, f0, replies, used', t)
    {
      var reply := replies[used];
      assert (Snap(), state) == AbsorbAll(c0, s0, replies[..used]);
      AbsorbNext(c0, s0, replies, used);
      used' := used + 1;
      t := Turn(reply);
    }

    /** One round of Lex's loop on an empty queue: answer the reply, then
        take the first item the scan queued, if any. */
    method Turn(reply: Reply) returns (t: Option<Token>)
      requires Valid() && items == []
      modifies this`bytes, this`index, this`start, this`width, this`after, this`first,
        this`items, this`saved, this`state, this`lines, this`hasInput
      ensures Valid()
      ensures Handed(Absorb(old(Snap()), old(state), reply), t)
      ensures t == Some(CtrlCPressed) <==> reply.err == Interrupted
      ensures t.Some? ==> (Fatal(t.value) <==> reply.err == Interrupted)
      ensures t.Some? && t != Some(CtrlCPressed) ==> WellFormed(t.value)
      ensures t.None? ==> items == []
      ensures lines == old(lines) + (if reply.err == NoError || reply.err == Failed then 1 else 0)
      ensures hasInput == (old(hasInput) && reply.err != Failed)
      ensures old(first) != [] ==> first != []
    {
      t := Answer(reply);
      if t.None? {
        t := Item();
      }
    }

    /** What Lex does with one reply from the supplier: an interrupt ends
        the call with the sentinel, a retry does nothing, and anything else
        is fed to the scanner. */
    method Answer(reply: Reply) returns (t: Option<Token>)
      requires Valid()
      modifies this`bytes, this`index, this`start, this`width, this`after, this`first,
        this`items, this`saved, this`state, this`lines, this`hasInput
      ensures Valid()
      ensures t == (if reply.err == Interrupted then Some(CtrlCPressed) else None)
      ensures lines == old(lines) + (if reply.err == NoError || reply.err == Failed then 1 else 0)
      ensures hasInput == (old(hasInput) && reply.err != Failed)
      ensures (Snap(), state) == Absorb(old(Snap()), old(state), reply)
      ensures old(first) != [] ==> first != []
    {
      if reply.err == Interrupted {
        return Some(CtrlCPressed);
      }
      if reply.err == Retry {
        return None;
      }
      Feed(reply.line, reply.err != NoError);
      t := None;
    }

    /** A probe: a copy of this lexer without a supplier, scanning one more
        line. This lexer is left as it was. */
    method Partial(line: string) returns (p: Lexer)
      requires Valid()
      ensures fresh(p) && p.Valid() && !p.hasInput
      ensures (p.Snap(), p.state) == RunFrom(Appended(Snap(), line), Some(state), state)
      ensures p.name == name && p.lines == lines
    {
      p := Detached();
      p.Scan(line);
    }

    /** The probe before it scans: a copy of this lexer with the supplier
        detached and its queue replaced by an empty one that is never read. */
    method Detached() returns (p: Lexer)
      requires Valid()
      ensures fresh(p) && p.Valid() && !p.hasInput && p.items == []
      ensures p.Snap() == Snap().(out := Output().(items := [])) && p.state == state
      ensures p.name == name && p.lines == lines
    {
      p := new Lexer.Copy(this);
      p.hasInput := false;
      p.items := [];
    }

    /* The first-word stack. */

    method Interactive()
      modifies this`first
      ensures first == [""]
    {
      first := [""];
    }

    method Reset()
      modifies this`first
      ensures first == if old(first) != [] then [""] else []
    {
      if first != [] {
        Interactive();
      }
    }
  }
}
