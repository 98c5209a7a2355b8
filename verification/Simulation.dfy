/** The lexer's continuation stack and the parser's contexts and keys, which never see each
    other, run in step on every input. */
module Simulation {
  import opened LexSpec
  import opened LexRun
  import opened TreeBuilder

  // The lexer's side: its open contexts, and the keys it has delivered without a value

  /** Where a state stands: in a context, with its last key delivered or not; at a key of
      the top level; in a value, its context on the stack; or in a comment. */
  datatype Place = Inside(k: Context, keyed: bool) | AtKey | Begun | InRemark | Nowhere

  function PlaceOf(s: State): Place {
    var t := Bare(s);
    if t.Halted? then Nowhere
    else if InContext(t) then Inside(ContextOf(t), t.MapKeyEnd? || t.MapValue?)
    else if InComment(t) then InRemark
    else if InTopKey(t) && !t.KeyEnd? then AtKey
    else Begun
  }

  /** The contexts a list of continuations stands for. */
  function Spelled(stack: seq<State>): (r: seq<Context>)
    ensures |r| == |stack|
  {
    if stack == [] then [] else Spelled(stack[..|stack| - 1]) + [ContextOf(stack[|stack| - 1])]
  }

  /** The open contexts: those of the stack and, when the state stands for one, its own. */
  function Contexts(c: Conf): seq<Context> {
    var p := PlaceOf(c.state);
    if p.Inside? then Spelled(c.stack) + [p.k] else Spelled(c.stack)
  }

  function Binds(k: Context): nat {
    if k.Array? then 0 else 1
  }

  /** How many of the stacked contexts bind values to keys. */
  function Maps(stack: seq<State>): nat {
    if stack == [] then 0 else Maps(stack[..|stack| - 1]) + Binds(ContextOf(stack[|stack| - 1]))
  }

  function MapsIn(ks: seq<Context>): nat {
    if ks == [] then 0 else MapsIn(ks[..|ks| - 1]) + Binds(ks[|ks| - 1])
  }

  lemma {:induction false} MapsSpelled(stack: seq<State>)
    ensures MapsIn(Spelled(stack)) == Maps(stack)
  {
    if stack != [] {
      var init := stack[..|stack| - 1];
      MapsSpelled(init);
      assert Spelled(stack)[..|init|] == Spelled(init);
    }
  }

  /** The keys delivered whose values have not been. */
  function Waiting(c: Conf): nat {
    match PlaceOf(c.state)
    case Inside(_, keyed) => Maps(c.stack) + (if keyed then 1 else 0)
    case AtKey => if c.stack == [] then 0 else Maps(c.stack[..|c.stack| - 1])
    case InRemark => if c.stack == [] then 0 else Maps(c.stack[..|c.stack| - 1])
    case _ => Maps(c.stack)
  }

  /** The lexer closes a map that still waits for the value of its last key. */
  predicate DropsKey(input: string, c: Conf) {
    c.state.MapValue? && At(input, c.pos) == '}'
  }

  function Dropped(input: string, c: Conf): nat {
    if DropsKey(input, c) then 1 else 0
  }

  function Last<T>(ks: seq<T>): T
    requires ks != []
  {
    ks[|ks| - 1]
  }

  /** What a step that delivers an item of kind k does to the contexts and waiting keys. */
  ghost predicate Effect(before: seq<Context>, waiting: nat, k: Kind, after: seq<Context>, waiting': nat) {
    match k
    case Error => true
    case EOF => before == [Root] && waiting == 0
    case KeyItem => after == before && before != [] && !Last(before).Array? && waiting' == waiting + 1
    case Text => after == before && waiting' == waiting
    case CommentOpen => after == before && waiting' == waiting
    case MapOpen => after == before + [Map] && waiting' == waiting
    case ArrayOpen => after == before + [Array] && waiting' == waiting
    case MapClose =>
      before == after + [Map] && after != [] && waiting == MapsIn(after) && waiting' + Binds(Last(after)) == waiting
    case ArrayClose =>
      before == after + [Array] && after != [] && waiting == MapsIn(after) && waiting' + Binds(Last(after)) == waiting
    case _ => after == before && before != [] && waiting' + Binds(Last(before)) == waiting
  }

  /** The effect of a move that drops `dropped` keys. */
  ghost predicate MoveEffect(c: Conf, m: Move, dropped: nat) {
    if m.out == [] then Contexts(m.to) == Contexts(c) && Waiting(m.to) + dropped == Waiting(c)
    else Effect(Contexts(c), Waiting(c), m.out[0].kind, Contexts(m.to), Waiting(m.to))
  }

  // The shapes a move can have

  /** A continuation that carries the innermost context and no key of its own. */
  predicate Plain(t: State) {
    var p := PlaceOf(t);
    p.Inside? && !p.keyed && !t.Skip?
  }

  predicate PlainTop(c: Conf) {
    c.stack != [] && Plain(Last(c.stack))
  }

  predicate Pops(c: Conf, to: Conf) {
    PlainTop(c) && to.state == Last(c.stack) && to.stack == c.stack[..|c.stack| - 1]
  }

  predicate Pushes(c: Conf, to: Conf, k: Context) {
    && |to.stack| == |c.stack| + 1 && to.stack[..|c.stack|] == c.stack
    && Plain(Last(to.stack)) && ContextOf(Last(to.stack)) == k
  }

  /** Items that carry no text. */
  predicate IsBracket(k: Kind) { k.ArrayOpen? || k.ArrayClose? || k.MapOpen? || k.MapClose? || k.EOF? }

  predicate Shape(c: Conf, m: Move, dropped: nat) {
    var p, q, to := PlaceOf(c.state), PlaceOf(m.to.state), m.to;
    if m.out == [] then
      || (to.stack == c.stack && q == p && dropped == 0)
      || (to.stack == c.stack && p == Inside(Map, true) && q == Inside(Map, false) && dropped == 1)
      || (p.Inside? && !p.keyed && q.InRemark? && Pushes(c, to, p.k) && dropped == 0)
      || (p.Inside? && !p.keyed && q.AtKey? && Pushes(c, to, p.k) && dropped == 0)
      || (p == Inside(Array, false) && q.Begun? && Pushes(c, to, Array) && dropped == 0)
      || (p == Inside(Map, true) && q.Begun? && Pushes(c, to, Map) && dropped == 0)
    else (IsBracket(m.out[0].kind) ==> m.out[0].val == "") && match m.out[0].kind
      case Error => true
      case EOF => p == Inside(Root, false) && c.stack == []
      case KeyItem =>
        to.stack == c.stack &&
        ((p.AtKey? && q.Begun? && c.stack == [TopValueEnd]) || (p == Inside(Map, false) && q == Inside(Map, true)))
      case Text => p.InRemark? && Pops(c, to)
      case CommentOpen => p.InRemark? && q.InRemark? && to.stack == c.stack
      case MapOpen => p.Begun? && q == Inside(Map, false) && to.stack == c.stack
      case ArrayOpen => p.Begun? && q == Inside(Array, false) && to.stack == c.stack
      case MapClose => p == Inside(Map, false) && Pops(c, to)
      case ArrayClose => p == Inside(Array, false) && Pops(c, to)
      case _ => p.Begun? && Pops(c, to)
  }

  lemma StringShape(input: string, c: Conf)
    requires Bounds(input, c) && PlainTop(c)
    ensures c.state.String? ==> Shape(c, StringStep(input, c), 0)
    ensures c.state.QuotedString? ==> Shape(c, QuotedStringStep(input, c, '\''), 0)
    ensures c.state.DubQuotedString? ==> Shape(c, QuotedStringStep(input, c, '"'), 0)
  {
  }

  lemma BlockShape(input: string, c: Conf)
    requires Bounds(input, c) && PlainTop(c)
    ensures c.state.Block? ==> Shape(c, BlockStep(input, c), 0)
  {
  }

  lemma NumberShape(input: string, c: Conf)
    requires Bounds(input, c) && PlainTop(c)
    ensures c.state.NumberOrDate? ==> Shape(c, NumberOrDateStep(input, c), 0)
  {
  }

  lemma DigitsShape(input: string, c: Conf)
    requires Bounds(input, c) && PlainTop(c)
    ensures c.state.Number? ==> Shape(c, NumberStep(input, c), 0)
    ensures c.state.Float? ==> Shape(c, FloatStep(input, c), 0)
  {
  }

  lemma DateShape(input: string, c: Conf)
    requires Bounds(input, c) && PlainTop(c)
    ensures c.state.DateAfterYear? ==> Shape(c, DateStep(input, c), 0)
  {
  }

  lemma EscapeShape(input: string, c: Conf)
    requires Bounds(input, c)
    ensures c.state.StringEscape? ==> Shape(c, StringEscapeStep(input, c), 0)
    ensures c.state.StringBinary? ==> Shape(c, StringBinaryStep(input, c), 0)
  {
  }

  lemma DigitShape(input: string, c: Conf)
    requires Bounds(input, c)
    ensures c.state.NumberOrDateStart? ==> Shape(c, DigitStep(input, c, NumberOrDate), 0)
    ensures c.state.NumberStart? ==> Shape(c, DigitStep(input, c, Number), 0)
    ensures c.state.FloatStart? ==> Shape(c, DigitStep(input, c, Float), 0)
  {
  }

  lemma ValueShape(input: string, c: Conf)
    requires Bounds(input, c)
    ensures c.state.Value? ==> Shape(c, ValueStep(input, c), 0)
  {
  }

  lemma RootShape(input: string, c: Conf)
    requires Bounds(input, c) && c.stack == []
    ensures c.state.Top? ==> Shape(c, TopStep(input, c), 0)
    ensures c.state.TopValueEnd? ==> Shape(c, TopValueEndStep(input, c), 0)
  {
  }

  lemma ArrayShape(input: string, c: Conf)
    requires Bounds(input, c)
    ensures c.state.ArrayValue? ==> Shape(c, ArrayValueStep(input, c), 0)
    ensures c.state.ArrayValueEnd? ==> Shape(c, ArrayValueEndStep(input, c), 0)
  {
  }

  lemma MapShape(input: string, c: Conf)
    requires Bounds(input, c)
    ensures c.state.MapKeyStart? ==> Shape(c, MapKeyStartStep(input, c), 0)
    ensures c.state.MapValueEnd? ==> Shape(c, MapValueEndStep(input, c), 0)
  {
  }

  lemma MapBindingShape(input: string, c: Conf)
    requires Bounds(input, c)
    ensures c.state.MapKeyEnd? ==> Shape(c, KeyEndStep(input, c, MapValue), 0)
    ensures c.state.MapValue? ==> Shape(c, MapValueStep(input, c), Dropped(input, c))
  {
  }

  lemma MapKeyShape(input: string, c: Conf)
    requires Bounds(input, c)
    ensures c.state.MapKey? ==> Shape(c, BareKeyStep(input, c, MapKeyEnd), 0)
    ensures c.state.MapQuotedKey? ==> Shape(c, QuotedKeyStep(input, c, '\'', MapKeyEnd), 0)
    ensures c.state.MapDubQuotedKey? ==> Shape(c, QuotedKeyStep(input, c, '"', MapKeyEnd), 0)
  {
  }

  lemma CloseShape(input: string, c: Conf)
    requires Bounds(input, c) && PlainTop(c)
    ensures c.state.ArrayEnd? ==> Shape(c, EmitPop(input, c.(start := c.pos), ArrayClose, c.pos, c.pos), 0)
    ensures c.state.MapEnd? ==> Shape(c, EmitPop(input, c.(start := c.pos), MapClose, c.pos, c.pos), 0)
  {
  }

  lemma TopKeyShape(input: string, c: Conf)
    requires Bounds(input, c) && c.stack == [TopValueEnd]
    ensures c.state.KeyStart? ==> Shape(c, KeyStartStep(input, c), 0)
    ensures c.state.KeyEnd? ==> Shape(c, KeyEndStep(input, c, Value), 0)
  {
  }

  lemma TopKeyTextShape(input: string, c: Conf)
    requires Bounds(input, c) && c.stack == [TopValueEnd]
    ensures c.state.Key? ==> Shape(c, BareKeyStep(input, c, KeyEnd), 0)
    ensures c.state.QuotedKey? ==> Shape(c, QuotedKeyStep(input, c, '\'', KeyEnd), 0)
    ensures c.state.DubQuotedKey? ==> Shape(c, QuotedKeyStep(input, c, '"', KeyEnd), 0)
  {
  }

  lemma CommentShape(input: string, c: Conf)
    requires Bounds(input, c) && PlainTop(c)
    ensures c.state.CommentStart? ==> Shape(c, Bracket(input, c, CommentOpen, Comment, c.pos), 0)
    ensures c.state.Comment? ==> Shape(c, CommentStep(input, c), 0)
  {
  }

  lemma StackFacts(input: string, c: Conf)
    requires Inv(input, c) && !c.state.Halted? && !c.state.Skip?
    ensures c.state.Top? || c.state.TopValueEnd? ==> c.stack == []
    ensures InTopKey(c.state) ==> c.stack == [TopValueEnd]
    ensures InValue(c.state) || InComment(c.state) || c.state.ArrayEnd? || c.state.MapEnd? ==> PlainTop(c)
  {
  }

  ghost predicate StepShape(input: string, c: Conf)
    requires Bounds(input, c)
  {
    Shape(c, Step(input, c), Dropped(input, c))
  }

  lemma ContextShape(input: string, c: Conf)
    requires Inv(input, c) && InContext(c.state)
    ensures StepShape(input, c)
  {
    if ContextOf(c.state).Map? && !c.state.MapEnd? {
      InMapShape(input, c);
    } else {
      StackFacts(input, c);
      if c.state.Top? || c.state.TopValueEnd? { RootShape(input, c); }
      else if c.state.ArrayEnd? || c.state.MapEnd? { CloseShape(input, c); }
      else { ArrayShape(input, c); }
    }
  }

  lemma InMapShape(input: string, c: Conf)
    requires Inv(input, c) && InContext(c.state) && ContextOf(c.state).Map? && !c.state.MapEnd?
    ensures StepShape(input, c)
  {
    MapShape(input, c);
    MapKeyShape(input, c);
    MapBindingShape(input, c);
  }

  lemma ScalarShape(input: string, c: Conf)
    requires Inv(input, c) && InValue(c.state)
    ensures StepShape(input, c)
  {
    StackFacts(input, c);
    StringShape(input, c);
    BlockShape(input, c);
    NumberShape(input, c);
    DigitsShape(input, c);
    DateShape(input, c);
    EscapeShape(input, c);
    DigitShape(input, c);
    ValueShape(input, c);
  }

  lemma OtherShape(input: string, c: Conf)
    requires Inv(input, c) && (InTopKey(c.state) || InComment(c.state) || c.state.Skip?)
    ensures StepShape(input, c)
  {
    if InComment(c.state) { RemarkShape(input, c); }
    else if InTopKey(c.state) { KeyShape(input, c); }
  }

  lemma RemarkShape(input: string, c: Conf)
    requires Inv(input, c) && InComment(c.state)
    ensures StepShape(input, c)
  {
    StackFacts(input, c);
    CommentShape(input, c);
  }

  lemma KeyShape(input: string, c: Conf)
    requires Inv(input, c) && InTopKey(c.state)
    ensures StepShape(input, c)
  {
    StackFacts(input, c);
    TopKeyShape(input, c);
    TopKeyTextShape(input, c);
  }

  lemma Append(stack: seq<State>, n: nat)
    requires |stack| == n + 1
    ensures Spelled(stack) == Spelled(stack[..n]) + [ContextOf(stack[n])]
    ensures Maps(stack) == Maps(stack[..n]) + Binds(ContextOf(stack[n]))
  {
  }

  /** The effect of a move follows from its shape. */
  lemma QuietEffect(c: Conf, m: Move, dropped: nat)
    requires Shape(c, m, dropped) && m.out == []
    ensures MoveEffect(c, m, dropped)
  {
    if m.to.stack != c.stack { Append(m.to.stack, |c.stack|); }
  }

  lemma PopEffect(c: Conf, to: Conf)
    requires Pops(c, to)
    ensures Contexts(to) == Spelled(c.stack) != []
    ensures Waiting(to) == Maps(c.stack[..|c.stack| - 1])
    ensures MapsIn(Spelled(c.stack)) == Maps(c.stack) == Waiting(to) + Binds(Last(Spelled(c.stack)))
  {
    Append(c.stack, |c.stack| - 1);
    MapsSpelled(c.stack);
  }

  lemma PoppingEffect(c: Conf, m: Move, dropped: nat)
    requires Shape(c, m, dropped) && m.out != [] && Pops(c, m.to)
    requires var k := m.out[0].kind; k.Text? || k.MapClose? || k.ArrayClose? || IsScalar(k)
    ensures MoveEffect(c, m, dropped)
  {
    PopEffect(c, m.to);
  }

  lemma StayingEffect(c: Conf, m: Move, dropped: nat)
    requires Shape(c, m, dropped) && m.out != []
    requires var k := m.out[0].kind; k.Error? || k.EOF? || k.CommentOpen? || k.MapOpen? || k.ArrayOpen? || k.KeyItem?
    ensures MoveEffect(c, m, dropped)
  {
    if c.stack == [TopValueEnd] { Append(c.stack, 0); }
  }

  ghost predicate StepEffect(input: string, c: Conf)
    requires Bounds(input, c)
  {
    MoveEffect(c, Step(input, c), Dropped(input, c))
  }

  lemma ShapeOfStep(input: string, c: Conf) returns (m: Move, dropped: nat)
    requires Inv(input, c) && !c.state.Halted?
    ensures m == Step(input, c) && dropped == Dropped(input, c) && Shape(c, m, dropped)
  {
    if InContext(c.state) { ContextShape(input, c); }
    else if InValue(c.state) { ScalarShape(input, c); }
    else { OtherShape(input, c); }
    m, dropped := Step(input, c), Dropped(input, c);
  }

  /** Every step opens, closes and binds as the item it delivers says. */
  lemma EffectOfStep(input: string, c: Conf)
    requires Inv(input, c) && !c.state.Halted?
    ensures StepEffect(input, c)
    ensures var m := Step(input, c); m.out != [] && IsBracket(m.out[0].kind) ==> m.out[0].val == ""
  {
    var m, dropped := ShapeOfStep(input, c);
    if m.out == [] {
      QuietEffect(c, m, dropped);
    } else {
      var k := m.out[0].kind;
      if k.Text? || k.MapClose? || k.ArrayClose? || IsScalar(k) { PoppingEffect(c, m, dropped); }
      else { StayingEffect(c, m, dropped); }
    }
  }

  // The parser's side

  predicate FitsContext(v: Value, k: Context) {
    if k.Array? then v.Arr? else v.Table?
  }

  predicate Mirrors(ks: seq<Context>, ctxs: seq<Value>) {
    |ks| == |ctxs| &&
    (ks == [] || (FitsContext(ctxs[|ks| - 1], Last(ks)) && Mirrors(ks[..|ks| - 1], ctxs[..|ks| - 1])))
  }

  /** The parser's contexts are of the kinds the lexer has open, and its keys are those the
      lexer has delivered without a value, and `extra` left over from dropped ones. */
  predicate Sim(ks: seq<Context>, waiting: nat, b: Builder, extra: nat) {
    Mirrors(ks, b.ctxs) && |b.keys| == waiting + extra
  }

  lemma SetSim(ks: seq<Context>, waiting: nat, b: Builder, extra: nat, v: Value)
    requires ks != [] && waiting >= Binds(Last(ks)) && Sim(ks, waiting, b, extra)
    ensures SetValue(b, v).Ok? && Sim(ks, waiting - Binds(Last(ks)), SetValue(b, v).b, extra)
  {
    var n := |ks| - 1;
    var b' := SetValue(b, v).b;
    assert b'.ctxs[..n] == b.ctxs[..n];
  }

  lemma PushSim(ks: seq<Context>, waiting: nat, b: Builder, extra: nat, k: Context, v: Value)
    requires Sim(ks, waiting, b, extra) && FitsContext(v, k)
    ensures Sim(ks + [k], waiting, Open(b, v), extra)
  {
    assert (ks + [k])[..|ks|] == ks && Open(b, v).ctxs[..|ks|] == b.ctxs;
  }

  lemma CloseSim(ks: seq<Context>, k: Context, waiting: nat, b: Builder, extra: nat)
    requires ks != [] && waiting >= Binds(Last(ks)) && Sim(ks + [k], waiting, b, extra)
    ensures Close(b).Ok? && Sim(ks, waiting - Binds(Last(ks)), Close(b).b, extra)
    ensures |b.ctxs| >= 2 && FitsContext(b.ctxs[|b.ctxs| - 1], k)
  {
    var n := |ks|;
    assert (ks + [k])[..n] == ks;
    SetSim(ks, waiting, b.(ctxs := b.ctxs[..n]), extra, b.ctxs[n]);
  }

  /** The parser takes an item whose effect the lexer has had, and mirrors it again; it
      finds what it needs: none of its three panics can happen. */
  lemma Heeds(ks: seq<Context>, waiting: nat, t: Token, ks': seq<Context>, waiting': nat, b: Builder, extra: nat)
    requires Sim(ks, waiting, b, extra) && Effect(ks, waiting, t.kind, ks', waiting')
    ensures !ProcessItem(b, t).Bug?
    ensures ProcessItem(b, t).Ok? && !t.kind.EOF? ==> Sim(ks', waiting', ProcessItem(b, t).b, extra)
    ensures t.kind.EOF? ==> |b.ctxs| == 1 && b.ctxs[0].Table? && |b.keys| == extra
    ensures t.kind.MapClose? ==> |b.ctxs| >= 2 && b.ctxs[|b.ctxs| - 1].Table?
    ensures t.kind.ArrayClose? ==> |b.ctxs| >= 2 && b.ctxs[|b.ctxs| - 1].Arr?
  {
    match t.kind
    case MapOpen => PushSim(ks, waiting, b, extra, Map, Table(map[]));
    case ArrayOpen => PushSim(ks, waiting, b, extra, Array, Arr([]));
    case MapClose => CloseSim(ks', Map, waiting, b, extra);
    case ArrayClose => CloseSim(ks', Array, waiting, b, extra);
    case Error => case EOF => case KeyItem => case Text => case CommentOpen =>
    case _ => if ScalarValue(t).Good? { SetSim(ks, waiting, b, extra, ScalarValue(t).v); }
  }

  // Whole inputs

  /** How many keys the rest of the run drops. */
  ghost function Drops(input: string, c: Conf): nat
    requires Inv(input, c)
    decreases Measure(input, c)
  {
    if Settled(input, c) then 0 else
      StepInv(input, c);
      StepDecreases(input, c);
      var to := Step(input, c).to;
      Dropped(input, c) + if to.state.Halted? then 0 else Drops(input, to)
  }

  /** The run comes to the end of the input seeking a delimiter. */
  ghost predicate RunsOut(input: string, c: Conf)
    requires Inv(input, c)
    decreases Measure(input, c)
  {
    if Stuck(input, c) then true
    else if c.state.Halted? then false
    else
      StepInv(input, c);
      StepDecreases(input, c);
      var to := Step(input, c).to;
      !to.state.Halted? && RunsOut(input, to)
  }

  lemma RunsOutStep(input: string, c: Conf)
    requires Inv(input, c) && !Settled(input, c)
    ensures Inv(input, Step(input, c).to)
    ensures RunsOut(input, c) <==> RunsOut(input, Step(input, c).to)
  {
    StepInv(input, c);
    StepDecreases(input, c);
  }

  lemma OutputDropsNothing(input: string, c: Conf)
    requires Inv(input, c) && !c.state.Halted?
    ensures Step(input, c).out != [] ==> Dropped(input, c) == 0
  {
  }

  /** One step of the lexer, as far as the parser is concerned. */
  lemma LexerStep(input: string, c: Conf) returns (to: Conf, out: seq<Token>, dropped: nat)
    requires Inv(input, c) && !Settled(input, c)
    ensures Inv(input, to) && (to.state.Halted? || Measure(input, to) < Measure(input, c))
    ensures Tokens(input, c) == out + Tokens(input, to)
    ensures Drops(input, c) == dropped + Drops(input, to)
    ensures RunsOut(input, c) <==> RunsOut(input, to)
    ensures out == [] ==> !to.state.Halted? && Contexts(to) == Contexts(c) && Waiting(to) + dropped == Waiting(c)
    ensures out != [] ==> |out| == 1 && dropped == 0 && (to.state.Halted? <==> out[0].kind.Error? || out[0].kind.EOF?)
    ensures out != [] ==> Effect(Contexts(c), Waiting(c), out[0].kind, Contexts(to), Waiting(to))
    ensures out != [] && IsBracket(out[0].kind) ==> out[0].val == ""
  {
    StepInv(input, c);
    StepDecreases(input, c);
    TokensStep(input, c);
    RunsOutStep(input, c);
    EffectOfStep(input, c);
    OutputDropsNothing(input, c);
    HaltsWithAWord(input, c);
    var m := Step(input, c);
    to, out, dropped := m.to, Out(m), Dropped(input, c);
  }

  /** The lexer has not halted, and the parser mirrors it. */
  ghost predicate Joint(input: string, c: Conf, b: Builder, extra: nat) {
    Inv(input, c) && !c.state.Halted? && Sim(Contexts(c), Waiting(c), b, extra)
  }

  /** No panic; and at the end only the root is open, with so many keys left over. */
  predicate Sane(r: Parsed, left: nat) {
    !r.Crashed? && (r.Tree? ==> |r.b.ctxs| == 1 && r.b.ctxs[0].Table? && |r.b.keys| == left)
  }

  /** The parser takes one token, and is done or mirrors the lexer again. */
  lemma TakeToken(ks: seq<Context>, waiting: nat, t: Token, ks': seq<Context>, waiting': nat,
                  rest: seq<Token>, b: Builder, extra: nat) returns (end: bool, b': Builder)
    requires Sim(ks, waiting, b, extra) && Effect(ks, waiting, t.kind, ks', waiting')
    ensures end ==> Sane(Build([t] + rest, b), extra) && (Build([t] + rest, b).Tree? ==> t.kind.EOF?)
    ensures !end ==> !t.kind.Error? && !t.kind.EOF? && Sim(ks', waiting', b', extra)
    ensures !end ==> Build([t] + rest, b) == Build(rest, b')
  {
    end, b' := true, b;
    Heeds(ks, waiting, t, ks', waiting', b, extra);
    if !t.kind.EOF? {
      BuildOne(t, rest, b);
      match ProcessItem(b, t)
      case Ok(next) => end, b' := false, next;
      case _ =>
    }
  }

  /** One step of the joint run ends it sanely or leads to another joint state. */
  lemma JointStep(input: string, c: Conf, b: Builder, extra: nat)
    returns (end: bool, to: Conf, b': Builder, extra': nat)
    requires Joint(input, c, b, extra) && !Stuck(input, c)
    ensures end ==> Sane(Build(Tokens(input, c), b), extra + Drops(input, c))
    ensures !end ==>
              && Joint(input, to, b', extra') && Measure(input, to) < Measure(input, c)
              && Build(Tokens(input, c), b) == Build(Tokens(input, to), b')
              && extra' + Drops(input, to) == extra + Drops(input, c)
  {
    var out, dropped;
    to, out, dropped := LexerStep(input, c);
    end, b', extra' := false, b, extra + dropped;
    var rest := Tokens(input, to);
    if out == [] {
      assert out + rest == rest;
    } else {
      assert out == [out[0]];
      end, b' := TakeToken(Contexts(c), Waiting(c), out[0], Contexts(to), Waiting(to), rest, b, extra);
      assert to.state.Halted? ==> Drops(input, to) == 0;
    }
  }

  lemma {:induction false} JointRun(input: string, c: Conf, b: Builder, extra: nat)
    requires Joint(input, c, b, extra)
    ensures Sane(Build(Tokens(input, c), b), extra + Drops(input, c))
    decreases Measure(input, c)
  {
    if !Stuck(input, c) {
      var end, to, b', extra' := JointStep(input, c, b, extra);
      if !end { JointRun(input, to, b', extra'); }
    }
  }

  lemma StartJoint(input: string)
    ensures Joint(input, START, NEW, 0)
  {
    assert Contexts(START) == [Root] && Waiting(START) == 0;
    assert Mirrors([], []) && Mirrors([Root], NEW.ctxs);
  }

  /** No input makes the parser panic; and when it reaches the end, only the root context
      is open, and the keys left over are exactly as many as the maps that were closed
      between a key and its value. */
  lemma ParseNeverCrashes(input: string)
    ensures Inv(input, START)
    ensures !Parse(input).Crashed?
    ensures Parse(input).Tree? ==>
              var b := Parse(input).b;
              |b.ctxs| == 1 && b.ctxs[0].Table? && |b.keys| == Drops(input, START)
  {
    StartJoint(input);
    JointRun(input, START, NEW, 0);
  }
}
