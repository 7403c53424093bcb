/** What `emit` does to the lexer's output side, as functions of values:
    newline suppression after a continuation operator, operator renaming,
    symbol reclassification, the first-word stack, and the item queue. */
module Emission {
  import opened Tokens
  import opened Scanning

  /** An item type after which a newline continues the statement. */
  predicate Continues(after: Kind) {
    after == OrF || after == AndF || after == Pipe || after == Redirect
  }

  /** emit drops a newline that follows a continuation operator. */
  predicate Suppressed(after: Kind, kind: Kind) {
    kind == Punct('\n') && Continues(after)
  }

  /** The item emit hands out for a request of `kind` over `text`. */
  function MakeToken(kind: Kind, text: string): Token {
    if kind == Symbol then Token(SymbolKind(text), text)
    else Token(kind, Rewrite(kind, text))
  }

  predicate Opens(k: Kind) {
    k == Punct('(') || k == Punct('{')
  }

  predicate Closes(k: Kind) {
    k == Punct(')') || k == Punct('}')
  }

  /** The first-word stack after an item is handed out. The empty sequence
      stands for "not tracking"; the head is the innermost group's word. */
  function UpdateFirst(first: seq<string>, t: Token): (f: seq<string>)
    ensures (first == []) <==> (f == [])
    ensures Opens(t.kind) && first != [] ==> f == [""] + first
    ensures Closes(t.kind) && |first| > 1 ==> f == first[1..]
    ensures !Opens(t.kind) && !(Closes(t.kind) && |first| > 1) ==> |f| == |first|
    ensures !Opens(t.kind) && !Closes(t.kind) && first != [] ==> f[1..] == first[1..]
    ensures !Opens(t.kind) && !Closes(t.kind) && first != [] && f[0] != first[0] ==>
      (t.kind == Symbol && first[0] == "" && f[0] == t.text) || (t.kind == Punct(':') && f[0] == "")
    ensures t.kind == Symbol && first != [] ==> f == (if first[0] == "" then [t.text] + first[1..] else first)
    ensures t.kind == Punct(':') && first != [] ==> f == [""] + first[1..]
    ensures Closes(t.kind) && |first| == 1 ==> f == first
  {
    if first == [] then first
    else if t.kind == Symbol then (if first[0] == "" then [t.text] + first[1..] else first)
    else if Opens(t.kind) then [""] + first
    else if Closes(t.kind) then (if |first| > 1 then first[1..] else first)
    else if t.kind == Punct(':') then [""] + first[1..]
    else first
  }

  /** The first-word stack after a run of items, in order. */
  function UpdateAll(first: seq<string>, ts: seq<Token>): seq<string>
    decreases |ts|
  {
    if ts == [] then first else UpdateAll(UpdateFirst(first, ts[0]), ts[1..])
  }

  lemma {:induction false} UpdateAllAppend(first: seq<string>, a: seq<Token>, b: seq<Token>)
    ensures UpdateAll(first, a + b) == UpdateAll(UpdateAll(first, a), b)
    decreases |a|
  {
    if a == [] {
      assert a + b == b;
    } else {
      assert (a + b)[1..] == a[1..] + b;
      UpdateAllAppend(UpdateFirst(first, a[0]), a[1..], b);
    }
  }

  /** Items that neither open nor close a group only touch the head word. */
  lemma {:induction false} FlatRunKeepsEnclosing(first: seq<string>, ts: seq<Token>)
    requires first != []
    requires forall i | 0 <= i < |ts| :: !Opens(ts[i].kind) && !Closes(ts[i].kind)
    ensures |UpdateAll(first, ts)| == |first|
    ensures UpdateAll(first, ts)[1..] == first[1..]
    decreases |ts|
  {
    if ts != [] {
      FlatRunKeepsEnclosing(UpdateFirst(first, ts[0]), ts[1..]);
    }
  }

  /** How many more groups a run of items opens than it closes. */
  function Balance(ts: seq<Token>): int
    decreases |ts|
  {
    if ts == [] then 0
    else
      var t := ts[|ts| - 1];
      Balance(ts[..|ts| - 1]) + (if Opens(t.kind) then 1 else if Closes(t.kind) then -1 else 0)
  }

  /** No prefix of the run closes more groups than it opened. */
  predicate NeverBelow(ts: seq<Token>) {
    forall k | 0 <= k <= |ts| :: Balance(ts[..k]) >= 0
  }

  /** A run that never goes below zero has a prefix that never does either,
      and a balance of at least zero. */
  lemma NeverBelowInit(ts: seq<Token>)
    requires ts != [] && NeverBelow(ts)
    ensures NeverBelow(ts[..|ts| - 1]) && Balance(ts) >= 0
  {
    var init := ts[..|ts| - 1];
    forall k | 0 <= k <= |init| ensures Balance(init[..k]) >= 0 {
      assert init[..k] == ts[..k];
    }
    assert ts[..|ts|] == ts;
  }

  /** One more item moves the stack's depth by that item's share of the
      balance and keeps the words beneath the open groups. */
  lemma UpdateKeepsBeneath(x: seq<string>, t: Token, b: nat, d: int)
    requires b + 1 <= |x|
    requires d == (if Opens(t.kind) then 1 else if Closes(t.kind) then -1 else 0)
    requires b + d >= 0
    ensures |UpdateFirst(x, t)| == |x| + d
    ensures UpdateFirst(x, t)[b + d + 1..] == x[b + 1..]
  {
    var y := UpdateFirst(x, t);
    if Opens(t.kind) {
      assert y == [""] + x;
    } else if Closes(t.kind) {
      assert y == x[1..];
    } else {
      assert y[1..] == x[1..];
    }
  }

  /** Folding over a run is folding over all but its last item, then
      updating with the last. */
  lemma UpdateAllSnoc(first: seq<string>, ts: seq<Token>)
    requires ts != []
    ensures UpdateAll(first, ts) == UpdateFirst(UpdateAll(first, ts[..|ts| - 1]), ts[|ts| - 1])
  {
    var init, t := ts[..|ts| - 1], ts[|ts| - 1];
    assert ts == init + [t];
    UpdateAllAppend(first, init, [t]);
    UpdateAllSingle(UpdateAll(first, init), t);
  }

  /** Over a run that never closes a group it did not open, the stack grows
      by the run's balance and everything below the groups the run left
      open, except the head, is untouched. */
  lemma {:induction false} NestedRunKeepsEnclosing(first: seq<string>, ts: seq<Token>)
    requires first != [] && NeverBelow(ts)
    ensures Balance(ts) >= 0
    ensures |UpdateAll(first, ts)| == |first| + Balance(ts)
    ensures UpdateAll(first, ts)[Balance(ts) + 1..] == first[1..]
    decreases |ts|
  {
    if ts == [] {
      assert Balance(ts) == 0;
    } else {
      var init, t := ts[..|ts| - 1], ts[|ts| - 1];
      NeverBelowInit(ts);
      NestedRunKeepsEnclosing(first, init);
      UpdateAllSnoc(first, ts);
      var x := UpdateAll(first, init);
      var d := if Opens(t.kind) then 1 else if Closes(t.kind) then -1 else 0;
      assert Balance(ts) == Balance(init) + d;
      UpdateKeepsBeneath(x, t, Balance(init), d);
    }
  }

  /** Closing a group restores the first-word stack of the enclosing scope,
      whatever was recorded inside the group, nested groups included. */
  lemma GroupRestoresEnclosing(first: seq<string>, open: Token, inner: seq<Token>, close: Token)
    requires first != [] && Opens(open.kind) && Closes(close.kind)
    requires NeverBelow(inner) && Balance(inner) == 0
    ensures UpdateAll(first, [open] + inner + [close]) == first
  {
    UpdateAllAppend(first, [open] + inner, [close]);
    UpdateAllAppend(first, [open], inner);
    var pushed := UpdateFirst(first, open);
    assert UpdateAll(first, [open]) == pushed;
    NestedRunKeepsEnclosing(pushed, inner);
    var done := UpdateAll(pushed, inner);
    assert UpdateAll(done, [close]) == UpdateFirst(done, close);
    assert done[1..] == first;
  }

  /** Inside a fresh group, the first symbol is the group's first word and
      later symbols leave it alone. */
  lemma {:induction false} FirstSymbolIsFirstWord(first: seq<string>, w: string, rest: seq<Token>)
    requires first != [] && w != ""
    requires forall i | 0 <= i < |rest| :: rest[i].kind == Symbol
    ensures UpdateAll([w] + first, rest) == [w] + first
    decreases |rest|
  {
    if rest != [] {
      assert UpdateFirst([w] + first, rest[0]) == [w] + first;
      FirstSymbolIsFirstWord(first, w, rest[1..]);
    }
  }

  /** In a group such as `(foo bar)`, the first symbol becomes the group's
      first word, later symbols leave it, and the close restores the
      enclosing stack. */
  lemma GroupFirstWord(first: seq<string>, open: Token, w: string, rest: seq<Token>, close: Token)
    requires first != [] && w != "" && Opens(open.kind) && Closes(close.kind)
    requires forall i | 0 <= i < |rest| :: rest[i].kind == Symbol
    ensures UpdateAll(first, [open, Token(Symbol, w)] + rest) == [w] + first
    ensures UpdateAll(first, [open, Token(Symbol, w)] + rest + [close]) == first
  {
    var sym := Token(Symbol, w);
    var pushed := [""] + first;
    var named := [w] + first;
    UpdateAllSingle(first, open);
    UpdateAllSingle(pushed, sym);
    assert [open] + [sym] == [open, sym];
    UpdateAllAppend(first, [open], [sym]);
    FirstSymbolIsFirstWord(first, w, rest);
    UpdateAllAppend(first, [open, sym], rest);
    UpdateAllSingle(named, close);
    UpdateAllAppend(first, [open, sym] + rest, [close]);
  }

  lemma UpdateAllSingle(first: seq<string>, t: Token)
    ensures UpdateAll(first, [t]) == UpdateFirst(first, t)
  {
    assert [t][1..] == [];
  }

  /** The output side of the lexer: pending items, the previous item type
      and the first-word stack. */
  datatype Emitter = Emitter(items: seq<Token>, after: Kind, first: seq<string>)

  /** emit, once the scanner is known to be alive. */
  function Emit(e: Emitter, kind: Kind, text: string): (e': Emitter)
    ensures e.items <= e'.items && |e'.items| <= |e.items| + 1
    ensures |e'.items| > |e.items| ==> e'.after == e'.items[|e.items|].kind
    ensures (e.first == []) <==> (e'.first == [])
  {
    if Suppressed(e.after, kind) then e
    else
      var t := MakeToken(kind, text);
      Emitter(e.items + [t], t.kind, UpdateFirst(e.first, t))
  }

  /** A newline is dropped exactly when the previous item continues the
      statement; after a lone `&` it is kept. */
  lemma NewlineSuppression(e: Emitter, text: string)
    ensures Emit(e, Punct('\n'), text) == e <==> Continues(e.after)
    ensures e.after == Background ==> Emit(e, Punct('\n'), text).items == e.items + [Token(Punct('\n'), text)]
  {
  }

  /** Operator text found in the table is handed out under its name. */
  lemma OperatorRenamed(e: Emitter, kind: Kind, text: string)
    requires kind.IsOperator() && text in OperatorTable
    ensures Emit(e, kind, text).items == e.items + [Token(kind, OperatorTable[text])]
    ensures Emit(e, kind, text).after == kind
  {
  }

  /** A symbol is queued with its text and the kind its braces give it. */
  lemma SymbolReclassified(e: Emitter, text: string)
    ensures Emit(e, Symbol, text).items == e.items + [Token(SymbolKind(text), text)]
  {
  }

  /** Any other request that is neither a symbol nor an operator is queued
      as it is, unless it is a dropped newline. */
  lemma PlainQueued(e: Emitter, kind: Kind, text: string)
    requires kind != Symbol && !kind.IsOperator() && !Suppressed(e.after, kind)
    ensures Emit(e, kind, text).items == e.items + [Token(kind, text)]
  {
  }

  /** An item that is queued becomes the previous item type and drives the
      first-word stack. */
  lemma FirstFollowsItem(e: Emitter, kind: Kind, text: string)
    requires !Suppressed(e.after, kind)
    ensures var e' := Emit(e, kind, text);
      |e'.items| == |e.items| + 1
      && e'.after == e'.items[|e.items|].kind
      && e'.first == UpdateFirst(e.first, e'.items[|e.items|])
  {
  }

  /** What every item the scanner emits looks like. */
  predicate WellFormed(t: Token) {
    t.kind != CtrlC
    && (t.kind == Symbol ==> !HasBrace(t.text))
    && (t.kind == BraceExpansion ==> HasBrace(t.text) && |t.text| > 1)
    && (t.kind.Punct? && HasBrace([t.kind.c]) ==> t.text == [t.kind.c])
  }

  /** No scanned item is the interrupt sentinel, so comparing items by value
      picks out the sentinel exactly as comparing them by identity would. */
  lemma WellFormedNotFatal(t: Token)
    requires WellFormed(t)
    ensures !Fatal(t)
  {
  }

  /** Every item of a queue is well formed (defined on the last item, the
      way the queue grows). */
  predicate AllWellFormed(ts: seq<Token>)
    decreases |ts|
  {
    ts == [] || (AllWellFormed(ts[..|ts| - 1]) && WellFormed(ts[|ts| - 1]))
  }

  lemma {:induction false} WellFormedAt(ts: seq<Token>, i: int)
    requires AllWellFormed(ts) && 0 <= i < |ts|
    ensures WellFormed(ts[i])
    decreases |ts|
  {
    if i < |ts| - 1 {
      WellFormedAt(ts[..|ts| - 1], i);
    }
  }

  /** Taking the head of a well-formed queue leaves a well-formed queue. */
  lemma {:induction false} WellFormedTail(ts: seq<Token>)
    requires AllWellFormed(ts) && ts != []
    ensures AllWellFormed(ts[1..])
    decreases |ts|
  {
    if |ts| > 1 {
      var init := ts[..|ts| - 1];
      WellFormedTail(init);
      assert ts[1..][..|ts[1..]| - 1] == init[1..];
    }
  }

  /** The requests the lexer states make of emit: never the interrupt
      sentinel, never a brace expansion (only symbols become one), and a
      brace only as its own one-character text. */
  predicate Emittable(kind: Kind, text: string) {
    kind != CtrlC && kind != BraceExpansion
    && (kind.Punct? && HasBrace([kind.c]) ==> text == [kind.c])
  }

  /** The item made for a request the states can make is well formed. */
  lemma MadeTokenWellFormed(kind: Kind, text: string)
    requires Emittable(kind, text)
    ensures WellFormed(MakeToken(kind, text))
  {
    if kind == Symbol {
      if HasBrace(text) && |text| == 1 {
        assert text == [text[0]];
      }
    } else if kind.IsOperator() {
      assert MakeToken(kind, text).kind == kind;
    } else {
      assert MakeToken(kind, text) == Token(kind, text);
    }
  }

  /** Emitting keeps the queue well formed. */
  lemma EmitWellFormed(e: Emitter, kind: Kind, text: string)
    requires AllWellFormed(e.items) && Emittable(kind, text)
    ensures AllWellFormed(Emit(e, kind, text).items)
  {
    var e' := Emit(e, kind, text);
    if !Suppressed(e.after, kind) {
      var t := MakeToken(kind, text);
      assert e'.items == e.items + [t];
      assert e'.items[..|e'.items| - 1] == e.items;
      MadeTokenWellFormed(kind, text);
    }
  }

  /** The items skipWhitespace emits over a run of blanks and single
      characters: each single character is emitted on its own. */
  function EmitSingles(e: Emitter, s: string): (e': Emitter)
    ensures e.items <= e'.items
    ensures (e.first == []) <==> (e'.first == [])
    decreases |s|
  {
    if s == [] then e
    else
      var prev := EmitSingles(e, s[..|s| - 1]);
      var c := s[|s| - 1];
      if IsSingle(c) then Emit(prev, Punct(c), [c]) else prev
  }

  /** One more character of the run is emitted on its own when it is a
      single-character punctuation, and dropped otherwise. */
  lemma EmitSinglesSnoc(e: Emitter, s: string, c: char)
    ensures EmitSingles(e, s + [c]) ==
      if IsSingle(c) then Emit(EmitSingles(e, s), Punct(c), [c]) else EmitSingles(e, s)
  {
    assert (s + [c])[..|s|] == s;
  }

  /** Every item emitted over such a run is a single character emitted as
      its own punctuation item. */
  lemma {:induction false} EmitSinglesPunctuation(e: Emitter, s: string)
    ensures forall i | |e.items| <= i < |EmitSingles(e, s).items| ::
      var t := EmitSingles(e, s).items[i];
      t.kind.Punct? && IsSingle(t.kind.c) && t.text == [t.kind.c] && t.kind.c in s
    decreases |s|
  {
    if s != [] {
      var init := s[..|s| - 1];
      EmitSinglesPunctuation(e, init);
      forall c | c in init ensures c in s {
        var k :| 0 <= k < |init| && init[k] == c;
        assert s[k] == c;
      }
    }
  }

  lemma {:induction false} EmitSinglesWellFormed(e: Emitter, s: string)
    requires AllWellFormed(e.items)
    ensures AllWellFormed(EmitSingles(e, s).items)
    decreases |s|
  {
    if s != [] {
      var prev := EmitSingles(e, s[..|s| - 1]);
      EmitSinglesWellFormed(e, s[..|s| - 1]);
      var c := s[|s| - 1];
      if IsSingle(c) {
        EmitWellFormed(prev, Punct(c), [c]);
      }
    }
  }

  /** A stretch of blanks and newlines yields nothing but newline items. */
  lemma {:induction false} BlankLinesEmitNewlines(e: Emitter, s: string)
    requires forall k | 0 <= k < |s| :: IsBlank(s[k]) || s[k] == '\n'
    ensures forall i | |e.items| <= i < |EmitSingles(e, s).items| ::
      EmitSingles(e, s).items[i] == Token(Punct('\n'), "\n")
    decreases |s|
  {
    if s != [] {
      var p := s[..|s| - 1];
      BlankLinesEmitNewlines(e, p);
    }
  }

  /** Blanks alone change nothing. */
  lemma {:induction false} BlanksEmitNothing(e: Emitter, s: string)
    requires forall k | 0 <= k < |s| :: IsBlank(s[k])
    ensures EmitSingles(e, s) == e
    decreases |s|
  {
    if s != [] {
      BlanksEmitNothing(e, s[..|s| - 1]);
    }
  }
}
