/** The first-word stack as lexer.go builds it: a list of cells, where
    `Cons` allocates a cell and `SetCar` overwrites one in place. A `Store`
    holds every cell's word by address (`heap`) and a lexer's list as the
    addresses of its cells, innermost group first (`list`). This module
    shows that one lexer reading its own list sees exactly the values of
    `Emission.UpdateFirst`, and what sharing a list between two lexers does. */
module Cells {
  import opened Tokens
  import opened Emission
  import opened Machine

  datatype Store = Store(heap: seq<string>, list: seq<nat>)

  /** Every address in the list names an allocated cell, and no cell
      appears twice, as in a list built by `Cons` alone. */
  predicate Linked(heap: seq<string>, list: seq<nat>) {
    && (forall k | 0 <= k < |list| :: list[k] < |heap|)
    && (forall i, j | 0 <= i < j < |list| :: list[i] != list[j])
  }

  /** Every cell of the list lies at or above address `n`. */
  predicate Above(list: seq<nat>, n: nat) {
    forall k | 0 <= k < |list| :: list[k] >= n
  }

  /** The words a lexer reads through its list. */
  function Words(heap: seq<string>, list: seq<nat>): (w: seq<string>)
    requires forall k | 0 <= k < |list| :: list[k] < |heap|
    ensures |w| == |list|
    ensures forall k | 0 <= k < |list| :: w[k] == heap[list[k]]
  {
    seq(|list|, k requires 0 <= k < |list| => heap[list[k]])
  }

  /** emit's update of the cell list (lexer.go:250-267): a symbol at an
      empty head word and `:` overwrite the head cell, an opening bracket
      conses a new cell, a closing one drops the head cell unless it is the
      last. */
  function UpdateCells(s: Store, t: Token): (r: Store)
    requires Linked(s.heap, s.list)
    ensures Linked(r.heap, r.list)
    ensures |r.heap| >= |s.heap|
  {
    if s.list == [] then s
    else if t.kind == Symbol then
      (if s.heap[s.list[0]] == "" then Store(s.heap[s.list[0] := t.text], s.list) else s)
    else if Opens(t.kind) then Store(s.heap + [""], [|s.heap|] + s.list)
    else if Closes(t.kind) then (if |s.list| > 1 then Store(s.heap, s.list[1..]) else s)
    else if t.kind == Punct(':') then Store(s.heap[s.list[0] := ""], s.list)
    else s
  }

  /** The cell list after a run of items, in order. */
  function UpdateAllCells(s: Store, ts: seq<Token>): (r: Store)
    requires Linked(s.heap, s.list)
    ensures Linked(r.heap, r.list)
    ensures |r.heap| >= |s.heap|
    decreases |ts|
  {
    if ts == [] then s else UpdateAllCells(UpdateCells(s, ts[0]), ts[1..])
  }

  /** A lexer that owns its cells reads, after each item, exactly the
      stack UpdateFirst computes from the words it read before. */
  lemma CellsFollowWords(s: Store, t: Token)
    requires Linked(s.heap, s.list)
    ensures var r := UpdateCells(s, t);
      Words(r.heap, r.list) == UpdateFirst(Words(s.heap, s.list), t)
  {
    var w := Words(s.heap, s.list);
    var r := UpdateCells(s, t);
    if s.list != [] && (t.kind == Symbol || t.kind == Punct(':')) && r != s {
      assert r.list == s.list;
      forall k | 0 <= k < |s.list|
        ensures r.heap[s.list[k]] == UpdateFirst(w, t)[k]
      {
        if k > 0 {
          assert s.list[k] != s.list[0];
        }
      }
    }
  }

  /** The same over a run of items. */
  lemma {:induction false} AllCellsFollowWords(s: Store, ts: seq<Token>)
    requires Linked(s.heap, s.list)
    ensures var r := UpdateAllCells(s, ts);
      Words(r.heap, r.list) == UpdateAll(Words(s.heap, s.list), ts)
    decreases |ts|
  {
    if ts != [] {
      CellsFollowWords(s, ts[0]);
      AllCellsFollowWords(UpdateCells(s, ts[0]), ts[1..]);
    }
  }

  /** The live lexer's words once a probe that shares its store, as the
      struct copy at lexer.go:104 makes it, has emitted `ts`: the probe
      writes the shared cells, and the live lexer reads them through its
      own, unchanged list. */
  function LiveAfterSharedProbe(live: Store, ts: seq<Token>): (w: seq<string>)
    requires Linked(live.heap, live.list)
    ensures |w| == |live.list|
  {
    var probe := UpdateAllCells(live, ts);
    Words(probe.heap, live.list)
  }

  /** A live lexer at a fresh command: nothing buffered, one empty word. */
  const AtCommand: Config := Config("", 0, 0, 0, None, Emitter([], Punct('\n'), [""]), true)

  /** The items a probe of that lexer queues for the line `foo` with its
      newline. */
  const FooItems: seq<Token> := [Token(Symbol, "foo"), Token(Punct('\n'), "\n")]

  /** The probe's scan, as Partial runs it, queues the symbol and the
      newline. */
  lemma ProbeQueuesFoo()
    ensures RunFrom(Appended(AtCommand, "foo\n"), Some(SkipWhitespace), SkipWhitespace).0.out.items == FooItems
  {
    assert Appended(AtCommand, "foo\n") == Config("foo\n", 0, 0, 0, None, Emitter([], Punct('\n'), [""]), true);
    SymbolThenNewline(Punct('\n'), [""]);
  }

  /** What the shared head cell does with those items: the live lexer reads
      `foo` as its own first word, and its own later `bar` is not recorded. */
  lemma SharedFooWritesThrough()
    ensures var live := Store([""], [0]);
      && Words(live.heap, live.list) == AtCommand.out.first
      && LiveAfterSharedProbe(live, FooItems) == ["foo"]
      && UpdateFirst(LiveAfterSharedProbe(live, FooItems), Token(Symbol, "bar")) == ["foo"]
      && UpdateFirst(Words(live.heap, live.list), Token(Symbol, "bar")) == ["bar"]
  {
    var live := Store([""], [0]);
    assert UpdateAllCells(live, FooItems) == UpdateAllCells(Store(["foo"], [0]), FooItems[1..]);
    assert UpdateAllCells(Store(["foo"], [0]), FooItems[1..]) == UpdateAllCells(Store(["foo"], [0]), []);
  }

  /** As written: the live lexer at a fresh command probes the line `foo`
      with its newline; through the shared head cell it then reads `foo` as
      its own first word, and when it scans `bar` itself its first word
      stays `foo`, where it would have recorded `bar`. */
  lemma SharedProbeWritesThrough()
    ensures var live := Store([""], [0]);
      && Words(live.heap, live.list) == AtCommand.out.first
      && LiveAfterSharedProbe(live, FooItems) == ["foo"]
      && UpdateFirst(LiveAfterSharedProbe(live, FooItems), Token(Symbol, "bar")) == ["foo"]
      && UpdateFirst(Words(live.heap, live.list), Token(Symbol, "bar")) == ["bar"]
    ensures RunFrom(Appended(AtCommand, "foo\n"), Some(SkipWhitespace), SkipWhitespace).0.out.items == FooItems
  {
    ProbeQueuesFoo();
    SharedFooWritesThrough();
  }

  /** The probe with cells of its own: fresh cells, above every cell of
      the store, holding the live lexer's words. */
  function CopiedProbe(live: Store): (p: Store)
    requires Linked(live.heap, live.list)
    ensures |p.list| == |live.list| && |p.heap| == |live.heap| + |live.list|
    ensures forall k | 0 <= k < |p.list| :: p.list[k] == |live.heap| + k
    ensures p.heap[..|live.heap|] == live.heap
    ensures forall k | 0 <= k < |live.list| :: p.heap[|live.heap| + k] == live.heap[live.list[k]]
  {
    var n := |live.heap|;
    Store(live.heap + Words(live.heap, live.list), seq(|live.list|, k => n + k))
  }

  /** The probe's fresh cells form a list of their own, above every cell
      of the store, through which the probe reads the live lexer's words. */
  lemma CopiedProbeWords(live: Store)
    requires Linked(live.heap, live.list)
    ensures var p := CopiedProbe(live);
      && Linked(p.heap, p.list) && Above(p.list, |live.heap|)
      && Words(p.heap, p.list) == Words(live.heap, live.list)
  {
  }

  /** One item never writes below the lowest cell of a list above `n`,
      and keeps the list above `n`. */
  lemma UpdateKeepsBelow(s: Store, t: Token, n: nat)
    requires Linked(s.heap, s.list) && Above(s.list, n) && n <= |s.heap|
    ensures var r := UpdateCells(s, t);
      Above(r.list, n) && r.heap[..n] == s.heap[..n]
  {
  }

  /** The same over a run of items. */
  lemma {:induction false} RunKeepsBelow(s: Store, ts: seq<Token>, n: nat)
    requires Linked(s.heap, s.list) && Above(s.list, n) && n <= |s.heap|
    ensures var r := UpdateAllCells(s, ts);
      Above(r.list, n) && n <= |r.heap| && r.heap[..n] == s.heap[..n]
    decreases |ts|
  {
    if ts != [] {
      UpdateKeepsBelow(s, ts[0], n);
      var s1 := UpdateCells(s, ts[0]);
      RunKeepsBelow(s1, ts[1..], n);
    }
  }

  /** Corrected: a probe with cells of its own leaves the live lexer's
      words alone whatever it emits, and reads the stack UpdateAll gives,
      which is the value copy `Lexing.Lexer.Partial` makes. */
  lemma CopiedProbeLeavesLive(live: Store, ts: seq<Token>)
    requires Linked(live.heap, live.list)
    ensures var p := UpdateAllCells(CopiedProbe(live), ts);
      && Words(p.heap, live.list) == Words(live.heap, live.list)
      && Words(p.heap, p.list) == UpdateAll(Words(live.heap, live.list), ts)
  {
    var p0 := CopiedProbe(live);
    CopiedProbeWords(live);
    RunKeepsBelow(p0, ts, |live.heap|);
    AllCellsFollowWords(p0, ts);
  }
}
