/** Families of inputs on which lexing and parsing never end, and what is delivered as a block. */
module Endings {
  import opened LexSpec
  import opened LexRun
  import opened TreeBuilder
  import opened Simulation
  import opened Outcomes
  import opened RoundTrip

  // Places from which the run on an input does not end

  ghost function EndlessOn(input: string): Places {
    (ts, c) => RunOn(input)(ts, c) && (RunsOut(input, c) ==> RunsOut(input, START))
  }

  lemma EndlessIsClosed(input: string)
    ensures Closed(input, EndlessOn(input)) && EndlessOn(input)([], START)
  {
    RunIsClosed(input);
    forall ts, c | EndlessOn(input)(ts, c)
      ensures Inv(input, c)
      ensures !Settled(input, c) ==> EndlessOn(input)(ts + Out(Step(input, c)), Step(input, c).to)
    {
      if !Settled(input, c) { RunsOutStep(input, c); }
    }
  }

  /** A run that comes to such a place never ends, and has delivered all it ever will. */
  lemma StuckThere(input: string, ts: seq<Token>, c: Conf)
    requires EndlessOn(input)(ts, c) && Stuck(input, c) && Converts(ts)
    ensures Parse(input).Endless?
  {
    assert RunOn(input)(ts, c);
    assert ts + [] == ts;
    OutcomeIff(input);
  }

  // Inputs that never end

  /** A key that is not quoted, with nothing after it. */
  predicate BareWord(w: string) {
    && w != [] && w[0] !in "#/'\"\0"
    && forall i :: 0 <= i < |w| ==> !EndsKey(w[i])
  }

  lemma KeyOne(input: string, at: Places, ts: seq<Token>, c: Conf)
    requires c.state.Key? && Closed(input, at) && at(ts, c) && c.pos < |input| && !EndsKey(input[c.pos])
    ensures at(ts, c.(pos := c.pos + 1))
  {
    Quiet(input, at, ts, c, c.(pos := c.pos + 1));
  }

  lemma {:induction false} KeyRun(input: string, at: Places, ts: seq<Token>, c: Conf, q: nat)
    requires c.state.Key? && Closed(input, at) && at(ts, c)
    requires c.pos <= q <= |input| && forall i :: c.pos <= i < q ==> !EndsKey(input[i])
    ensures at(ts, c.(pos := q))
    decreases q - c.pos
  {
    if c.pos < q {
      KeyOne(input, at, ts, c);
      KeyRun(input, at, ts, c.(pos := c.pos + 1), q);
    } else {
      assert c.(pos := q) == c;
    }
  }

  lemma StartsBareWord(input: string, at: Places)
    requires Closed(input, at) && at([], START) && BareWord(input)
    ensures at([], Conf(Key, 0, 1, [TopValueEnd]))
  {
    assert [] + [TopValueEnd] == [TopValueEnd];
    Quiet(input, at, [], START, Conf(KeyStart, 0, 0, [TopValueEnd]));
    Quiet(input, at, [], Conf(KeyStart, 0, 0, [TopValueEnd]), Conf(Key, 0, 1, [TopValueEnd]));
  }

  /** A lone bare word. */
  lemma BareWordNeverEnds(w: string)
    requires BareWord(w)
    ensures Parse(w).Endless?
  {
    EndlessIsClosed(w);
    StartsBareWord(w, EndlessOn(w));
    KeyRun(w, EndlessOn(w), [], Conf(Key, 0, 1, [TopValueEnd]), |w|);
    StuckThere(w, [], Conf(Key, 0, |w|, [TopValueEnd]));
  }

  /** A quoted key left open. */
  lemma OpenKeyNeverEnds(s: string)
    requires QUOTE !in s
    ensures Parse([QUOTE] + s).Endless?
  {
    var text := [QUOTE] + s;
    EndlessIsClosed(text);
    OpensTopKey(text, EndlessOn(text), [], 0, []);
    var outer := [] + [TopValueEnd];
    assert forall i :: 1 <= i < |text| ==> text[i] == s[i - 1];
    QuotedRun(text, EndlessOn(text), [], Conf(QuotedKey, 1, 1, outer), |text|);
    StuckThere(text, [], Conf(QuotedKey, 1, |text|, outer));
  }

  /** A key, and after it a text that starts with the character `open`. */
  function Begun(k: string, open: char, s: string): string {
    Quoted(k) + ['='] + ([open] + s)
  }

  lemma BegunAt(input: string, k: string, open: char, s: string)
    requires input == Begun(k, open, s)
    ensures var p := |k| + 3;
            && Has(input, 0, Quoted(k)) && At(input, p - 1) == '=' && At(input, p) == open
            && |input| == p + 1 + |s| && input[p + 1..] == s
  {
    var p := |k| + 3;
    assert input[0..0 + |input|] == input;
    HasSplit(input, 0, Quoted(k) + ['='], [open] + s);
    KeyAt(input, 0, k);
    HasSplit(input, p, [open], s);
    HasAt(input, p, [open], 0);
    assert input[p + 1..p + 1 + |s|] == input[p + 1..];
  }

  /** From the start of the input to the text after its opening character. */
  lemma ReadBegun(input: string, at: Places, k: string, open: char, s: string)
    requires Closed(input, at) && at([], START) && QUOTE !in k && (open == QUOTE || open == '(')
    requires input == Begun(k, open, s)
    ensures var p := |k| + 4;
            at([Token(KeyItem, k)], Conf(if open == QUOTE then QuotedString else Block, p, p, [TopValueEnd]))
  {
    var p, ts := |k| + 3, [Token(KeyItem, k)];
    BegunAt(input, k, open, s);
    ReadKey(input, at, [], true, 0, [], k);
    assert [] + ts == ts && [] + [TopValueEnd] == [TopValueEnd];
    Quiet(input, at, ts, Conf(Value, p, p, [TopValueEnd]),
          Conf(if open == QUOTE then QuotedString else Block, p + 1, p + 1, [TopValueEnd]));
  }

  /** A quoted value left open. */
  lemma OpenStringNeverEnds(k: string, s: string)
    requires QUOTE !in k && QUOTE !in s
    ensures Parse(Begun(k, QUOTE, s)).Endless?
  {
    var text, p, ts := Begun(k, QUOTE, s), |k| + 4, [Token(KeyItem, k)];
    EndlessIsClosed(text);
    ReadBegun(text, EndlessOn(text), k, QUOTE, s);
    BegunAt(text, k, QUOTE, s);
    assert forall i :: p <= i < |text| ==> text[i] == s[i - p];
    QuotedRun(text, EndlessOn(text), ts, Conf(QuotedString, p, p, [TopValueEnd]), |text|);
    StuckThere(text, ts, Conf(QuotedString, p, |text|, [TopValueEnd]));
  }

  // Blocks

  /** A ')' that has a line to itself, the end of the input or a NUL ending one too. */
  predicate ClosesBlock(input: string, p: nat) {
    && p < |input| && input[p] == ')' && p > 0 && input[p - 1] == '\n'
    && (At(input, p + 1) == '\n' || At(input, p + 1) == '\0')
  }

  /** A step that ends a block delivers the text before the ')' exactly when the ')' is not
      the last character of the input. */
  lemma BlockTextIff(input: string, c: Conf)
    requires Bounds(input, c) && c.state.Block? && c.stack != []
    ensures Step(input, c).out != [] <==> ClosesBlock(input, c.pos)
    ensures ClosesBlock(input, c.pos) ==>
              (Step(input, c).out[0].val == input[c.start..c.pos] <==> c.pos + 1 < |input|)
    ensures ClosesBlock(input, c.pos) && c.pos + 1 == |input| ==>
              Step(input, c).out[0].val == input[c.start..c.pos] + [')']
  {
    if ClosesBlock(input, c.pos) && c.pos + 1 == |input| {
      assert input[c.start..c.pos + 1] == input[c.start..c.pos] + [input[c.pos]];
    }
  }

  lemma BlockOne(input: string, at: Places, ts: seq<Token>, c: Conf)
    requires c.state.Block? && Closed(input, at) && at(ts, c) && c.pos < |input| && !ClosesBlock(input, c.pos)
    ensures at(ts, c.(pos := c.pos + 1))
  {
    assert Bounds(input, c);
    Quiet(input, at, ts, c, c.(pos := c.pos + 1));
  }

  lemma {:induction false} BlockRun(input: string, at: Places, ts: seq<Token>, c: Conf, q: nat)
    requires c.state.Block? && Closed(input, at) && at(ts, c)
    requires c.pos <= q <= |input| && forall i :: c.pos <= i < q ==> !ClosesBlock(input, i)
    ensures at(ts, c.(pos := q))
    decreases q - c.pos
  {
    if c.pos < q {
      BlockOne(input, at, ts, c);
      BlockRun(input, at, ts, c.(pos := c.pos + 1), q);
    } else {
      assert c.(pos := q) == c;
    }
  }

  /** No line of s, or of s with something after it, is a lone ')' that ends before `end`. */
  predicate NoClosing(s: string, end: nat) {
    forall i :: 0 <= i < end ==> !ClosesBlock(s, i)
  }

  /** What closes a block in a text that follows a '(' is what closes it in the whole input. */
  lemma ClosesInside(input: string, p: nat, s: string, i: nat)
    requires 0 < p <= |input| && input[p..] == s && input[p - 1] == '(' && i < |s|
    ensures ClosesBlock(input, p + i) <==> ClosesBlock(s, i)
  {
    assert input[p + i] == s[i];
    if i > 0 { assert input[p + i - 1] == s[i - 1]; }
    if i + 1 < |s| { assert input[p + i + 1] == s[i + 1]; }
  }

  lemma ReadBlock(input: string, at: Places, k: string, s: string, end: nat)
    requires Closed(input, at) && at([], START) && QUOTE !in k && input == Begun(k, '(', s)
    requires end <= |s| && NoClosing(s, end)
    ensures var p := |k| + 4; at([Token(KeyItem, k)], Conf(Block, p, p + end, [TopValueEnd]))
  {
    var p := |k| + 4;
    ReadBegun(input, at, k, '(', s);
    BegunAt(input, k, '(', s);
    forall i | p <= i < p + end ensures !ClosesBlock(input, i) { ClosesInside(input, p, s, i - p); }
    BlockRun(input, at, [Token(KeyItem, k)], Conf(Block, p, p, [TopValueEnd]), p + end);
  }

  /** A block left open. */
  lemma OpenBlockNeverEnds(k: string, s: string)
    requires QUOTE !in k && NoClosing(s, |s|)
    ensures Parse(Begun(k, '(', s)).Endless?
  {
    var text, p := Begun(k, '(', s), |k| + 4;
    EndlessIsClosed(text);
    ReadBlock(text, EndlessOn(text), k, s, |s|);
    BegunAt(text, k, '(', s);
    StuckThere(text, [Token(KeyItem, k)], Conf(Block, p, |text|, [TopValueEnd]));
  }

  /** The closing of a block, in the middle of the input or at its end. */
  lemma BlockCloses(input: string, at: Places, ts: seq<Token>, c: Conf)
    requires c.state.Block? && c.stack == [TopValueEnd] && Closed(input, at) && at(ts, c)
    requires c.start <= c.pos && ClosesBlock(input, c.pos)
    ensures var upto := if c.pos + 1 < |input| then c.pos else c.pos + 1;
            at(ts + [Token(StringItem, input[c.start..upto])], Conf(TopValueEnd, c.pos + 1, c.pos + 1, []))
  {
    var upto := if c.pos + 1 < |input| then c.pos else c.pos + 1;
    assert [TopValueEnd] == [] + [TopValueEnd];
    RoundTrip.Pops(input, c, [], TopValueEnd, StringItem, upto, c.pos + 1);
    Speaks(input, at, ts, c, Token(StringItem, input[c.start..upto]), Conf(TopValueEnd, c.pos + 1, c.pos + 1, []));
  }

  /** Text without a line that is a lone ')'. */
  predicate NoLoneParenthesis(t: string) {
    NoClosing(t + ['\n'], |t|)
  }

  lemma NoneBeforeTheLast(t: string, tail: string)
    requires NoLoneParenthesis(t)
    ensures NoClosing(t + ['\n'] + tail, |t| + 1)
  {
    var u, s := t + ['\n'], t + ['\n'] + tail;
    forall i | 0 <= i < |t| + 1 ensures !ClosesBlock(s, i) {
      assert s[i] == u[i];
      if i < |t| { assert s[i + 1] == u[i + 1]; assert !ClosesBlock(u, i); }
    }
  }

  /** To the ')' that closes the block, the last character of the input or followed by a newline. */
  lemma ReadToClosing(input: string, at: Places, k: string, t: string, tail: string)
    requires Closed(input, at) && at([], START) && QUOTE !in k && NoLoneParenthesis(t)
    requires tail == [')'] || tail == [')', '\n']
    requires input == Begun(k, '(', t + ['\n'] + tail)
    ensures var c := Conf(Block, |k| + 4, |k| + 5 + |t|, [TopValueEnd]);
            && at([Token(KeyItem, k)], c) && ClosesBlock(input, c.pos)
            && c.pos + |tail| == |input| && input[c.start..c.pos] == t + ['\n'] && input[c.pos..] == tail
  {
    var s, p := t + ['\n'] + tail, |k| + 4;
    NoneBeforeTheLast(t, tail);
    ReadBlock(input, at, k, s, |t| + 1);
    BegunAt(input, k, '(', s);
    assert input[p - 1] == '(';
    assert s[|t|] == '\n' && s[|t| + 1] == ')';
    ClosesInside(input, p, s, |t| + 1);
    assert input[p..p + |t| + 1] == s[..|t| + 1] == t + ['\n'];
    assert input[p + |t| + 1..] == s[|t| + 1..] == tail;
  }

  lemma EndsAtTheTop(input: string, at: Places, ts: seq<Token>)
    requires Closed(input, at) && at(ts, Conf(TopValueEnd, |input|, |input|, []))
    ensures at(ts, Conf(Top, |input|, |input|, []))
  {
    Quiet(input, at, ts, Conf(TopValueEnd, |input|, |input|, []), Conf(Top, |input|, |input|, []));
  }

  /** A document of one key and one text. */
  lemma ParsesToText(input: string, k: string, v: string)
    requires RunOn(input)([Token(KeyItem, k)] + [Token(StringItem, v)], Conf(Top, |input|, |input|, []))
    ensures Parse(input) == Tree(Builder([Table(map[k := Str(v)])], []))
  {
    var n := Leaf(Token(StringItem, v));
    var entries := [Entry(k, n)];
    RunEnds(input, [Token(KeyItem, k)] + [Token(StringItem, v)]);
    assert entries[1..] == [];
    assert FlattenEntries(entries) == [Token(KeyItem, k)] + Flatten(n) + FlattenEntries([]);
    assert [Token(KeyItem, k)] + [Token(StringItem, v)] + [] == [Token(KeyItem, k)] + [Token(StringItem, v)];
    BuildDocument(entries, [Token(EOF, "")]);
    DenotesOne(k, n);
  }

  lemma DenotesOne(k: string, n: Node)
    requires IsNode(n) && Denote(n).Good?
    ensures Denote(Object([Entry(k, n)])) == Scalar.Good(Table(map[k := Denote(n).v]))
  {
    var entries := [Entry(k, n)];
    assert entries[1..] == [];
    assert DenoteEntries([], map[][k := Denote(n).v]) == Scalar.Good(Table(map[][k := Denote(n).v]));
  }

  /** From the start of the input through the block to the end of the input. */
  lemma ReadThroughBlock(input: string, at: Places, k: string, t: string, tail: string)
    requires Closed(input, at) && at([], START) && QUOTE !in k && NoLoneParenthesis(t)
    requires tail == [')'] || tail == [')', '\n']
    requires input == Begun(k, '(', t + ['\n'] + tail)
    ensures var v := if tail == [')'] then t + ['\n'] + [')'] else t + ['\n'];
            at([Token(KeyItem, k)] + [Token(StringItem, v)], Conf(Top, |input|, |input|, []))
  {
    var c, ts := Conf(Block, |k| + 4, |k| + 5 + |t|, [TopValueEnd]), [Token(KeyItem, k)];
    ReadToClosing(input, at, k, t, tail);
    BlockCloses(input, at, ts, c);
    if tail == [')'] {
      assert input[c.start..c.pos + 1] == input[c.start..c.pos] + input[c.pos..];
      EndsAtTheTop(input, at, ts + [Token(StringItem, t + ['\n'] + [')'])]);
    } else {
      assert input[c.pos + 1] == input[c.pos..][1];
      Separates(input, at, ts + [Token(StringItem, t + ['\n'])], c.pos + 1, [], TopValueEnd);
    }
  }

  /** A block whose ')' is followed by a newline is the text before the ')'. */
  lemma BlockBeforeNewline(k: string, t: string)
    requires QUOTE !in k && NoLoneParenthesis(t)
    ensures Parse(Begun(k, '(', t + ['\n'] + [')', '\n'])) == Tree(Builder([Table(map[k := Str(t + ['\n'])])], []))
  {
    var text := Begun(k, '(', t + ['\n'] + [')', '\n']);
    RunIsClosed(text);
    ReadThroughBlock(text, RunOn(text), k, t, [')', '\n']);
    ParsesToText(text, k, t + ['\n']);
  }

  /** The same block closed by the last character of the input keeps the ')'. */
  lemma BlockAtTheEnd(k: string, t: string)
    requires QUOTE !in k && NoLoneParenthesis(t)
    ensures Parse(Begun(k, '(', t + ['\n'] + [')'])) == Tree(Builder([Table(map[k := Str(t + ['\n'] + [')'])])], []))
  {
    var text := Begun(k, '(', t + ['\n'] + [')']);
    RunIsClosed(text);
    ReadThroughBlock(text, RunOn(text), k, t, [')']);
    ParsesToText(text, k, t + ['\n'] + [')']);
  }
}
