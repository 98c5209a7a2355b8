/** Runs of the lexer: what its continuation stack always looks like, when it stops, and
    the tokens it delivers. */
module LexRun {
  import opened LexSpec
  import Runs

  // The shape of the stack

  /** Continuations after a value: one for each context a value can stand in. */
  predicate AfterValue(t: State) { t.TopValueEnd? || t.ArrayValueEnd? || t.MapValueEnd? }

  /** Continuations after a comment. */
  predicate AfterComment(t: State) {
    t.Top? || t.ArrayValue? || t.ArrayValueEnd? || t.MapKeyStart? || t.MapValueEnd?
  }

  datatype Context = Root | Array | Map

  /** States that stand for the innermost open context themselves. */
  predicate InContext(t: State) {
    AfterValue(t) || AfterComment(t) || t.ArrayEnd? || t.MapQuotedKey? || t.MapDubQuotedKey? || t.MapKey?
    || t.MapKeyEnd? || t.MapValue? || t.MapEnd?
  }

  function ContextOf(t: State): Context {
    if t.Top? || t.TopValueEnd? then Root
    else if t.ArrayValue? || t.ArrayValueEnd? || t.ArrayEnd? then Array
    else Map
  }

  /** States inside a key at the top level. */
  predicate InTopKey(t: State) { t.KeyStart? || t.DubQuotedKey? || t.QuotedKey? || t.Key? || t.KeyEnd? }

  predicate InComment(t: State) { t.CommentStart? || t.Comment? }

  /** The state a chain of skips leads to. */
  function Bare(t: State): State {
    if t.Skip? then Bare(t.next) else t
  }

  /** Continuations after values, from the root context inwards. */
  predicate Spells(stack: seq<State>) {
    forall i :: 0 <= i < |stack| ==> AfterValue(stack[i]) && (stack[i].TopValueEnd? <==> i == 0)
  }

  predicate StackInv(c: Conf) {
    var t := Bare(c.state);
    if t.Halted? then true
    else if InContext(t) then
      Spells(c.stack) && (ContextOf(t).Root? <==> c.stack == [])
    else if InTopKey(t) then c.stack == [TopValueEnd]
    else if InComment(t) then
      c.stack != [] &&
      var n := |c.stack| - 1;
      AfterComment(c.stack[n]) && Spells(c.stack[..n]) && (ContextOf(c.stack[n]).Root? <==> n == 0)
    else c.stack != [] && Spells(c.stack)
  }

  predicate SkipInv(t: State) {
    t.Skip? ==> !t.next.Skip? && !t.next.Halted? && !t.next.Block?
  }

  ghost predicate Inv(input: string, c: Conf) {
    Bounds(input, c) && StackInv(c) && SkipInv(c.state)
  }

  /** The invariant is kept, at most one item delivered, and the position does not go back. */
  ghost predicate Good(input: string, c: Conf, m: Move) {
    && Inv(input, m.to) && |m.out| <= 1 && c.pos <= m.to.pos
    && (m.to.state.Halted? || m.out == [] || (!m.out[0].kind.Error? && !m.out[0].kind.EOF?))
  }

  lemma PopAfterValue(input: string, c: Conf, kind: Kind, upto: nat, pos: nat)
    requires c.stack != [] && Spells(c.stack) && c.start <= upto <= pos <= |input| && c.pos <= pos
    requires !kind.Error? && !kind.EOF?
    ensures Good(input, c, EmitPop(input, c, kind, upto, pos))
  {
  }

  lemma PopAfterComment(input: string, c: Conf)
    requires Inv(input, c) && c.state.Comment?
    ensures Good(input, c, EmitPop(input, c, Text, c.pos, c.pos))
  {
  }

  lemma CommentStack(start: nat, pos: nat, stack: seq<State>, back: State)
    requires Spells(stack) && AfterComment(back) && (ContextOf(back).Root? <==> stack == [])
    ensures StackInv(Conf(CommentStart, start, pos, stack + [back]))
  {
    assert (stack + [back])[..|stack|] == stack && (stack + [back])[|stack|] == back;
  }

  lemma PushComment(input: string, c: Conf, back: State)
    requires Bounds(input, c) && !c.state.Halted? && AfterComment(back)
    requires Spells(c.stack) && (ContextOf(back).Root? <==> c.stack == [])
    ensures Good(input, c, Comments(input, c, back))
  {
    CommentStack(c.start, Comments(input, c, back).to.pos, c.stack, back);
  }

  lemma RootStepInv(input: string, c: Conf)
    requires Inv(input, c) && (c.state.Top? || c.state.TopValueEnd?)
    ensures Good(input, c, Step(input, c))
  {
    PushComment(input, c, Top);
  }

  lemma ArrayStepInv(input: string, c: Conf)
    requires Inv(input, c) && (c.state.ArrayValue? || c.state.ArrayValueEnd?)
    ensures Good(input, c, Step(input, c))
  {
    if OpensComment(input, c.pos) { PushComment(input, c, c.state); }
  }

  lemma CloseStepInv(input: string, c: Conf)
    requires Inv(input, c) && (c.state.ArrayEnd? || c.state.MapEnd?)
    ensures Good(input, c, Step(input, c))
  {
    PopAfterValue(input, c.(start := c.pos), if c.state.ArrayEnd? then ArrayClose else MapClose, c.pos, c.pos);
  }

  lemma MapStepInv(input: string, c: Conf)
    requires Inv(input, c) && (c.state.MapKeyStart? || c.state.MapValueEnd?)
    ensures Good(input, c, Step(input, c))
  {
    if OpensComment(input, c.pos) { PushComment(input, c, c.state); }
  }

  lemma MapKeyStepInv(input: string, c: Conf)
    requires Inv(input, c)
    requires c.state.MapQuotedKey? || c.state.MapDubQuotedKey? || c.state.MapKey?
    ensures Good(input, c, Step(input, c))
  {
  }

  lemma MapValueStepInv(input: string, c: Conf)
    requires Inv(input, c) && (c.state.MapKeyEnd? || c.state.MapValue?)
    ensures Good(input, c, Step(input, c))
  {
  }

  lemma KeyStepInv(input: string, c: Conf)
    requires Inv(input, c) && InTopKey(c.state)
    ensures Good(input, c, Step(input, c))
  {
  }

  /** States inside a value: their continuation is on the stack. */
  predicate InValue(t: State) {
    !t.Skip? && !t.Halted? && !InContext(t) && !InTopKey(t) && !InComment(t)
  }

  lemma ValueStepInv(input: string, c: Conf)
    requires Inv(input, c) && c.state.Value?
    ensures Good(input, c, Step(input, c))
  {
  }

  lemma QuotedStepInv(input: string, c: Conf)
    requires Inv(input, c) && (c.state.QuotedString? || c.state.DubQuotedString?)
    ensures Good(input, c, Step(input, c))
  {
    PopAfterValue(input, c, StringItem, c.pos, After(input, c.pos));
  }

  lemma StringStepInv(input: string, c: Conf)
    requires Inv(input, c) && c.state.String?
    ensures Good(input, c, Step(input, c))
  {
    PopAfterValue(input, c, StringItem, c.pos, After(input, c.pos));
    PopAfterValue(input, c, StringItem, c.pos, c.pos);
    PopAfterValue(input, c, Bool, c.pos, c.pos);
  }

  lemma BlockStepInv(input: string, c: Conf)
    requires Inv(input, c) && c.state.Block?
    ensures Good(input, c, Step(input, c))
  {
    var n := After(input, c.pos);
    PopAfterValue(input, c, StringItem, if n < |input| then c.pos else n, n);
  }

  lemma NumberStepInv(input: string, c: Conf)
    requires Inv(input, c) && (c.state.Number? || c.state.Float?)
    ensures Good(input, c, Step(input, c))
  {
    PopAfterValue(input, c, if c.state.Float? then FloatItem else Integer, c.pos, c.pos);
  }

  lemma NumberOrDateStepInv(input: string, c: Conf)
    requires Inv(input, c) && c.state.NumberOrDate?
    ensures Good(input, c, Step(input, c))
  {
    PopAfterValue(input, c, Integer, c.pos, c.pos);
  }

  lemma DateStepInv(input: string, c: Conf)
    requires Inv(input, c) && c.state.DateAfterYear?
    ensures Good(input, c, Step(input, c))
  {
    var m := Matched(input, c.pos, 0);
    if m == ZULU_LENGTH { PopAfterValue(input, c, Datetime, c.pos + m, c.pos + m); }
  }

  lemma EscapeStepInv(input: string, c: Conf)
    requires Inv(input, c)
    requires c.state.StringEscape? || c.state.StringBinary?
             || c.state.NumberOrDateStart? || c.state.NumberStart? || c.state.FloatStart?
    ensures Good(input, c, Step(input, c))
  {
  }

  lemma OtherStepInv(input: string, c: Conf)
    requires Inv(input, c) && (InComment(c.state) || c.state.Skip? || c.state.Halted?)
    ensures Good(input, c, Step(input, c))
  {
    if c.state.Comment? { PopAfterComment(input, c); }
  }

  /** Every step keeps the invariant; in particular the states that pop always find a
      continuation to pop. */
  lemma StepInv(input: string, c: Conf)
    requires Inv(input, c)
    ensures Good(input, c, Step(input, c))
  {
    match c.state
    case Top => RootStepInv(input, c);
    case TopValueEnd => RootStepInv(input, c);
    case ArrayValue => ArrayStepInv(input, c);
    case ArrayValueEnd => ArrayStepInv(input, c);
    case ArrayEnd => CloseStepInv(input, c);
    case MapEnd => CloseStepInv(input, c);
    case MapKeyStart => MapStepInv(input, c);
    case MapValueEnd => MapStepInv(input, c);
    case MapQuotedKey => MapKeyStepInv(input, c);
    case MapDubQuotedKey => MapKeyStepInv(input, c);
    case MapKey => MapKeyStepInv(input, c);
    case MapKeyEnd => MapValueStepInv(input, c);
    case MapValue => MapValueStepInv(input, c);
    case Value => ValueStepInv(input, c);
    case QuotedString => QuotedStepInv(input, c);
    case DubQuotedString => QuotedStepInv(input, c);
    case String => StringStepInv(input, c);
    case Block => BlockStepInv(input, c);
    case NumberOrDate => NumberOrDateStepInv(input, c);
    case Number => NumberStepInv(input, c);
    case Float => NumberStepInv(input, c);
    case DateAfterYear => DateStepInv(input, c);
    case _ =>
      if InTopKey(c.state) { KeyStepInv(input, c); }
      else if InComment(c.state) || c.state.Skip? || c.state.Halted? { OtherStepInv(input, c); }
      else { EscapeStepInv(input, c); }
  }

  /** The lexer halts with a word: an error, or the end of the input. */
  ghost predicate LastWord(input: string, c: Conf)
    requires Bounds(input, c)
  {
    var m := Step(input, c);
    m.to.state.Halted? ==> m.out != [] && (m.out[0].kind.Error? || m.out[0].kind.EOF?)
  }

  lemma ContextHalts(input: string, c: Conf)
    requires Inv(input, c) && InContext(c.state)
    ensures LastWord(input, c)
  {
  }

  lemma KeyHalts(input: string, c: Conf)
    requires Inv(input, c) && (InTopKey(c.state) || InComment(c.state) || c.state.Skip?)
    ensures LastWord(input, c)
  {
  }

  lemma ValueHalts(input: string, c: Conf)
    requires Inv(input, c) && InValue(c.state)
    ensures LastWord(input, c)
  {
  }

  lemma HaltsWithAWord(input: string, c: Conf)
    requires Inv(input, c) && !c.state.Halted?
    ensures LastWord(input, c)
  {
    if InContext(c.state) { ContextHalts(input, c); }
    else if InValue(c.state) { ValueHalts(input, c); }
    else { KeyHalts(input, c); }
  }

  // Termination

  /** States that wait for a delimiter and stay where they are when the input ends first. */
  predicate Seeks(t: State) {
    t.DubQuotedKey? || t.QuotedKey? || t.Key? || t.MapQuotedKey? || t.MapDubQuotedKey? || t.MapKey?
    || t.QuotedString? || t.DubQuotedString? || t.Block?
  }

  predicate Stuck(input: string, c: Conf) {
    Seeks(c.state) && c.pos >= |input|
  }

  predicate EndsKey(r: char) { IsWhitespace(r) || IsNL(r) || IsSeparator(r) }

  /** How many steps can follow each other without consuming a character. */
  function Rank(input: string, c: Conf): nat {
    var t := c.state;
    if t.Skip? then 10
    else if t.CommentStart? then 9
    else if t.Comment? then 8
    else if t.MapKeyEnd? || t.KeyEnd? then
      if EndsKey(At(input, c.pos)) then 0 else if t.MapKeyEnd? then 8 else 7
    else if t.MapValue? || t.ArrayValue? || t.MapKeyStart? then 7
    else if t.Value? then 6
    else if t.TopValueEnd? then 4
    else if t.ArrayValueEnd? || t.MapValueEnd? || t.Top? then 3
    else if t.KeyStart? then 2
    else if t.Key? || t.MapKey? then 1
    else if Seeks(t) || t.Halted? then 0
    else 5
  }

  function Measure(input: string, c: Conf): nat {
    if c.pos <= |input| then 12 * (|input| - c.pos) + Rank(input, c) else 0
  }

  lemma StuckStays(input: string, c: Conf)
    requires Inv(input, c) && Stuck(input, c)
    ensures Step(input, c) == Move(c, [])
  {
  }

  /** The step halts the lexer or brings it closer to halting. */
  ghost predicate Decreases(input: string, c: Conf)
    requires Bounds(input, c)
  {
    var to := Step(input, c).to;
    to.state.Halted? || Measure(input, to) < Measure(input, c)
  }

  lemma RootDecreases(input: string, c: Conf)
    requires Inv(input, c) && InContext(c.state) && !ContextOf(c.state).Map?
    ensures Decreases(input, c)
  {
  }

  lemma MapDecreases(input: string, c: Conf)
    requires Inv(input, c) && InContext(c.state) && ContextOf(c.state).Map? && !Stuck(input, c)
    ensures Decreases(input, c)
  {
  }

  lemma KeyDecreases(input: string, c: Conf)
    requires Inv(input, c) && (InTopKey(c.state) || c.state.Value?) && !Stuck(input, c)
    ensures Decreases(input, c)
  {
  }

  lemma ScalarDecreases(input: string, c: Conf)
    requires Inv(input, c) && InValue(c.state) && !c.state.Value? && !Stuck(input, c)
    ensures Decreases(input, c)
  {
  }

  lemma OtherDecreases(input: string, c: Conf)
    requires Inv(input, c) && (InComment(c.state) || c.state.Skip?)
    ensures Decreases(input, c)
  {
  }

  /** Until it halts, or sits at the end of the input looking for a delimiter, the lexer
      gets closer to the end or down in rank with every call of a state function. */
  lemma StepDecreases(input: string, c: Conf)
    requires Inv(input, c) && !c.state.Halted? && !Stuck(input, c)
    ensures Decreases(input, c)
  {
    if InContext(c.state) {
      if ContextOf(c.state).Map? { MapDecreases(input, c); } else { RootDecreases(input, c); }
    } else if InTopKey(c.state) || c.state.Value? {
      KeyDecreases(input, c);
    } else if InValue(c.state) {
      ScalarDecreases(input, c);
    } else {
      OtherDecreases(input, c);
    }
  }

  /** One call of the current state function. */
  ghost function Advance(input: string): Conf -> Conf {
    c => if Inv(input, c) then Step(input, c).to else c
  }

  /** Halted, or at the end of the input seeking a delimiter; no state is both. */
  predicate Settled(input: string, c: Conf) { c.state.Halted? || Stuck(input, c) }

  ghost function Sound(input: string): Conf -> bool { c => Inv(input, c) }
  ghost function Done(input: string): Conf -> bool { c => Settled(input, c) }
  ghost function Left(input: string): Conf -> nat { c => Measure(input, c) }

  lemma AdvanceSettled(input: string, c: Conf)
    requires Sound(input)(c) && Done(input)(c)
    ensures Advance(input)(c) == c
  {
    if Stuck(input, c) { StuckStays(input, c); }
  }

  lemma AdvanceUnsettled(input: string, c: Conf)
    requires Sound(input)(c) && !Done(input)(c)
    ensures Sound(input)(Advance(input)(c))
    ensures Done(input)(Advance(input)(c)) || Left(input)(Advance(input)(c)) < Left(input)(c)
  {
    StepInv(input, c);
    StepDecreases(input, c);
  }

  /** From every reachable configuration the lexer, within a number of steps bounded by the
      remaining input, either halts or is at the end of the input seeking a delimiter, and
      there it stays however often it is stepped. */
  lemma Settles(input: string, c: Conf, more: nat) returns (k: nat)
    requires Inv(input, c)
    ensures k <= 12 * (|input| - c.pos) + 11
    ensures var end := Runs.Iterate(Advance(input), c, k);
            Settled(input, end) && Runs.Iterate(Advance(input), c, k + more) == end
  {
    k := SettlesIn(input, c, more);
    assert Done(input)(Runs.Iterate(Advance(input), c, k));
  }

  lemma SettlesIn(input: string, c: Conf, more: nat) returns (k: nat)
    requires Sound(input)(c)
    ensures k <= Left(input)(c) + 1 && Done(input)(Runs.Iterate(Advance(input), c, k))
    ensures Runs.Iterate(Advance(input), c, k + more) == Runs.Iterate(Advance(input), c, k)
  {
    var f, inv, settled, measure := Advance(input), Sound(input), Done(input), Left(input);
    forall x: Conf | inv(x) && !settled(x) ensures inv(f(x)) && (settled(f(x)) || measure(f(x)) < measure(x)) {
      AdvanceUnsettled(input, x);
    }
    forall x: Conf | inv(x) && settled(x) ensures f(x) == x {
      AdvanceSettled(input, x);
    }
    k := Runs.Settles(f, inv, settled, measure, c, more);
  }

  // The tokens of the rest of the input

  datatype Token = Token(kind: Kind, val: string)

  function TokenOf(item: Item): Token { Token(item.kind, item.val) }

  function Out(m: Move): seq<Token> {
    if m.out == [] then [] else [TokenOf(m.out[0])]
  }

  /** Everything the lexer still delivers. The last token is EOF or an error, unless the
      input ends inside a delimited text: then there is no last word. */
  function Tokens(input: string, c: Conf): seq<Token>
    requires Inv(input, c)
    decreases Measure(input, c)
  {
    if c.state.Halted? || Stuck(input, c) then [] else
      StepInv(input, c);
      StepDecreases(input, c);
      var m := Step(input, c);
      Out(m) + if m.to.state.Halted? then [] else Tokens(input, m.to)
  }

  /** One step of the lexer delivers the front of its tokens. */
  lemma TokensStep(input: string, c: Conf)
    requires Inv(input, c) && !c.state.Halted? && !Stuck(input, c)
    ensures var m := Step(input, c);
            Inv(input, m.to) && Tokens(input, c) == Out(m) + Tokens(input, m.to)
  {
    StepInv(input, c);
    StepDecreases(input, c);
    var m := Step(input, c);
    if m.to.state.Halted? { assert Out(m) + [] == Out(m); }
  }
}
