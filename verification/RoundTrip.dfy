/** Configurations written out and read back: a printer, and the proof that the lexer and
    the parser recover from its text exactly the tree that was printed. */
module RoundTrip {
  import opened LexSpec
  import opened LexRun
  import opened TreeBuilder

  datatype Config =
    | CStr(s: string) | CInt(i: int) | CBool(b: bool)
    | CArr(es: seq<Config>)
    | CMap(entries: seq<Binding>)

  datatype Binding = Binding(key: string, value: Config)

  const QUOTE := '\''

  /** Strings and keys without a single quote, integers of 64 bits. */
  predicate Writable(c: Config) {
    match c
    case CStr(s) => QUOTE !in s
    case CInt(i) => -INT64_LIMIT <= i < INT64_LIMIT
    case CBool(_) => true
    case CArr(es) => forall i :: 0 <= i < |es| ==> Writable(es[i])
    case CMap(entries) => forall i :: 0 <= i < |entries| ==> QUOTE !in entries[i].key && Writable(entries[i].value)
  }

  /** The value a configuration stands for; of entries with the same key, the last counts. */
  function ValueOf(c: Config): Value
    decreases c, 0
  {
    match c
    case CStr(s) => Str(s)
    case CInt(i) => Int(i)
    case CBool(b) => Boolean(b)
    case CArr(es) => Arr(ValuesOf(es))
    case CMap(entries) => Table(TableOf(entries))
  }

  function ValuesOf(es: seq<Config>): seq<Value>
    decreases es, 1
  {
    if es == [] then [] else [ValueOf(es[0])] + ValuesOf(es[1..])
  }

  function TableOf(entries: seq<Binding>): map<string, Value>
    decreases entries, 1
  {
    if entries == [] then map[]
    else map[entries[0].key := ValueOf(entries[0].value)] + TableOf(entries[1..])
  }

  // The printer

  function Digit(d: nat): char
    requires d < 10
  {
    ('0' as int + d) as char
  }

  function Decimal(n: nat): string {
    if n < 10 then [Digit(n)] else Decimal(n / 10) + [Digit(n % 10)]
  }

  function Numeral(i: int): string {
    if i < 0 then ['-'] + Decimal(-i) else Decimal(i)
  }

  function Quoted(s: string): string { [QUOTE] + s + [QUOTE] }

  function Print(c: Config): string
    decreases c, 0
  {
    match c
    case CStr(s) => Quoted(s)
    case CInt(i) => Numeral(i)
    case CBool(b) => if b then "true" else "false"
    case CArr(es) => ['['] + PrintList(es) + [']']
    case CMap(entries) => ['{'] + PrintEntries(entries) + ['}']
  }

  function PrintList(es: seq<Config>): string
    decreases es, 1
  {
    if es == [] then [] else Print(es[0]) + ['\n'] + PrintList(es[1..])
  }

  function PrintEntries(entries: seq<Binding>): string
    decreases entries, 1
  {
    if entries == [] then []
    else Quoted(entries[0].key) + ['='] + (Print(entries[0].value) + ['\n']) + PrintEntries(entries[1..])
  }

  // Numbers are read back

  lemma {:induction false} DecimalDigits(n: nat)
    ensures Decimal(n) != [] && AllDigits(Decimal(n)) && Digits(Decimal(n)) == n
  {
    if n >= 10 {
      var s := Decimal(n);
      DecimalDigits(n / 10);
      assert s[..|s| - 1] == Decimal(n / 10);
    }
  }

  lemma UnsignedReads(ds: string)
    requires ds != [] && AllDigits(ds)
    ensures ParseInt(ds) == if Digits(ds) < INT64_LIMIT then Scalar.Good(Int(Digits(ds))) else Bad
  {
    assert IsDigit(ds[0]);
  }

  lemma SignedReads(ds: string)
    requires ds != [] && AllDigits(ds)
    ensures ParseInt(['-'] + ds) == if Digits(ds) <= INT64_LIMIT then Scalar.Good(Int(0 - Digits(ds))) else Bad
  {
    assert (['-'] + ds)[1..] == ds;
  }

  lemma NumeralReads(i: int)
    requires -INT64_LIMIT <= i < INT64_LIMIT
    ensures ParseInt(Numeral(i)) == Scalar.Good(Int(i))
  {
    if i < 0 {
      DecimalDigits(-i);
      SignedReads(Decimal(-i));
      assert -(-i) == i;
    } else {
      DecimalDigits(i);
      UnsignedReads(Decimal(i));
    }
  }

  // The nodes the tokens of a printed configuration spell, and what they denote

  function LeafToken(c: Config): Token
    requires !c.CArr? && !c.CMap?
  {
    match c
    case CStr(s) => Token(StringItem, s)
    case CInt(i) => Token(Integer, Numeral(i))
    case CBool(_) => Token(Bool, Print(c))
  }

  function NodeOf(c: Config): (n: Node)
    ensures IsNode(n)
    decreases c, 0
  {
    match c
    case CArr(es) => List(NodesOf(es))
    case CMap(entries) => Object(EntriesOf(entries))
    case _ => Leaf(LeafToken(c))
  }

  function NodesOf(es: seq<Config>): (ns: seq<Node>)
    ensures forall i :: 0 <= i < |ns| ==> IsNode(ns[i])
    decreases es, 1
  {
    if es == [] then [] else [NodeOf(es[0])] + NodesOf(es[1..])
  }

  function EntriesOf(entries: seq<Binding>): (ns: seq<Entry>)
    ensures forall i :: 0 <= i < |ns| ==> IsNode(ns[i].node)
    decreases entries, 1
  {
    if entries == [] then [] else [Entry(entries[0].key, NodeOf(entries[0].value))] + EntriesOf(entries[1..])
  }

  lemma {:induction false} Denotes(c: Config)
    requires Writable(c)
    ensures Denote(NodeOf(c)) == Scalar.Good(ValueOf(c))
    decreases c, 0
  {
    match c
    case CStr(_) =>
    case CInt(i) => NumeralReads(i);
    case CBool(_) =>
    case CArr(es) => ListDenotes(es, []); assert [] + ValuesOf(es) == ValuesOf(es);
    case CMap(entries) => EntriesDenote(entries, map[]); assert map[] + TableOf(entries) == TableOf(entries);
  }

  lemma {:induction false} ListDenotes(es: seq<Config>, before: seq<Value>)
    requires forall i :: 0 <= i < |es| ==> Writable(es[i])
    ensures DenoteList(NodesOf(es), before) == Scalar.Good(Arr(before + ValuesOf(es)))
    decreases es, 1
  {
    if es == [] {
      assert before + [] == before;
    } else {
      Denotes(es[0]);
      var v := ValueOf(es[0]);
      ListDenotes(es[1..], before + [v]);
      assert before + [v] + ValuesOf(es[1..]) == before + ([v] + ValuesOf(es[1..]));
      assert NodesOf(es)[1..] == NodesOf(es[1..]);
    }
  }

  lemma Merged(before: map<string, Value>, k: string, v: Value, after: map<string, Value>)
    ensures before[k := v] + after == before + (map[k := v] + after)
  {
  }

  lemma {:induction false} EntriesDenote(entries: seq<Binding>, before: map<string, Value>)
    requires forall i :: 0 <= i < |entries| ==> Writable(entries[i].value)
    ensures DenoteEntries(EntriesOf(entries), before) == Scalar.Good(Table(before + TableOf(entries)))
    decreases entries, 1
  {
    if entries == [] {
      assert before + map[] == before;
    } else {
      var Binding(k, c) := entries[0];
      Denotes(c);
      var v := ValueOf(c);
      EntriesDenote(entries[1..], before[k := v]);
      Merged(before, k, v, TableOf(entries[1..]));
      assert EntriesOf(entries)[0] == Entry(k, NodeOf(c)) && EntriesOf(entries)[1..] == EntriesOf(entries[1..]);
    }
  }

  // Reading text

  /** The input has this text at p. */
  predicate Has(input: string, p: nat, s: string) {
    p + |s| <= |input| && input[p..p + |s|] == s
  }

  lemma HasSplit(input: string, p: nat, s: string, t: string)
    requires Has(input, p, s + t)
    ensures Has(input, p, s) && Has(input, p + |s|, t)
  {
    var u := input[p..p + |s + t|];
    assert u[..|s|] == s && u[|s|..] == t;
  }

  lemma HasAt(input: string, p: nat, s: string, i: nat)
    requires Has(input, p, s) && i < |s|
    ensures At(input, p + i) == s[i] && After(input, p + i) == p + i + 1
  {
    assert input[p..p + |s|][i] == s[i];
  }

  /** Places of a run: the tokens delivered so far, and the configuration reached. */
  type Places = (seq<Token>, Conf) -> bool

  /** Places that are left only for other such places, as the lexer is stepped. */
  ghost predicate Closed(input: string, at: Places) {
    forall ts, c {:trigger at(ts, c), Bounds(input, c)} ::
      at(ts, c) ==> Inv(input, c) && (!Settled(input, c) ==> at(ts + Out(Step(input, c)), Step(input, c).to))
  }

  /** A call of a state function that delivers nothing. */
  lemma Quiet(input: string, at: Places, ts: seq<Token>, c: Conf, to: Conf)
    requires Closed(input, at) && at(ts, c) && !Settled(input, c) && Step(input, c) == Move(to, [])
    ensures at(ts, to)
  {
    assert Bounds(input, c);
    assert ts + Out(Step(input, c)) == ts;
  }

  /** A call of a state function that delivers a token. */
  lemma Speaks(input: string, at: Places, ts: seq<Token>, c: Conf, t: Token, to: Conf)
    requires Closed(input, at) && at(ts, c) && !Settled(input, c)
    requires Step(input, c).to == to && Out(Step(input, c)) == [t]
    ensures at(ts + [t], to)
  {
    assert Bounds(input, c);
  }

  // Delimited texts

  lemma QuotedOne(input: string, at: Places, ts: seq<Token>, c: Conf)
    requires c.state.QuotedString? || c.state.QuotedKey? || c.state.MapQuotedKey?
    requires Closed(input, at) && at(ts, c) && c.pos < |input| && input[c.pos] != QUOTE
    ensures at(ts, c.(pos := c.pos + 1))
  {
    Quiet(input, at, ts, c, c.(pos := c.pos + 1));
  }

  lemma {:induction false} QuotedRun(input: string, at: Places, ts: seq<Token>, c: Conf, q: nat)
    requires c.state.QuotedString? || c.state.QuotedKey? || c.state.MapQuotedKey?
    requires Closed(input, at) && at(ts, c)
    requires c.pos <= q <= |input| && forall i :: c.pos <= i < q ==> input[i] != QUOTE
    ensures at(ts, c.(pos := q))
    decreases q - c.pos
  {
    if c.pos < q {
      QuotedOne(input, at, ts, c);
      QuotedRun(input, at, ts, c.(pos := c.pos + 1), q);
    } else {
      assert c.(pos := q) == c;
    }
  }

  lemma DigitOne(input: string, at: Places, ts: seq<Token>, c: Conf)
    requires c.state.Number? || c.state.NumberOrDate?
    requires Closed(input, at) && at(ts, c) && IsDigit(At(input, c.pos))
    ensures at(ts, c.(pos := c.pos + 1))
  {
    Quiet(input, at, ts, c, c.(pos := c.pos + 1));
  }

  lemma {:induction false} DigitRun(input: string, at: Places, ts: seq<Token>, c: Conf, q: nat)
    requires c.state.Number? || c.state.NumberOrDate?
    requires Closed(input, at) && at(ts, c)
    requires c.pos <= q <= |input| && forall i :: c.pos <= i < q ==> IsDigit(input[i])
    ensures at(ts, c.(pos := q))
    decreases q - c.pos
  {
    if c.pos < q {
      DigitOne(input, at, ts, c);
      DigitRun(input, at, ts, c.(pos := c.pos + 1), q);
    } else {
      assert c.(pos := q) == c;
    }
  }

  lemma HasQuoted(input: string, p: nat, s: string)
    requires Has(input, p, Quoted(s)) && QUOTE !in s
    ensures var q := p + 1 + |s|;
            && q < |input| && input[p] == QUOTE && input[p + 1..q] == s && input[q] == QUOTE
            && forall i :: p < i < q ==> input[i] != QUOTE
  {
    var q := p + 1 + |s|;
    HasSplit(input, p, [QUOTE] + s, [QUOTE]);
    HasSplit(input, p, [QUOTE], s);
    HasAt(input, p, [QUOTE], 0);
    HasAt(input, q, [QUOTE], 0);
    forall i | p < i < q ensures input[i] != QUOTE {
      HasAt(input, p + 1, s, i - (p + 1));
    }
  }

  /** The configuration at the first character of a value, its continuation on the stack. */
  function AtValue(p: nat, outer: seq<State>, back: State): Conf {
    Conf(Value, p, p, outer + [back])
  }

  /** Emitting a value returns to its continuation. */
  lemma Pops(input: string, c: Conf, outer: seq<State>, back: State, kind: Kind, upto: nat, pos: nat)
    requires c.stack == outer + [back] && c.start <= upto <= |input| && pos <= |input|
    ensures var m := EmitPop(input, c, kind, upto, pos);
            m.to == Conf(back, pos, pos, outer) && Out(m) == [Token(kind, input[c.start..upto])]
  {
    assert (outer + [back])[..|outer|] == outer;
  }

  lemma ReadString(input: string, at: Places, ts: seq<Token>, p: nat, outer: seq<State>, back: State, s: string)
    requires Closed(input, at) && at(ts, AtValue(p, outer, back)) && Has(input, p, Quoted(s)) && QUOTE !in s
    ensures var q := p + |Quoted(s)|;
            at(ts + [Token(StringItem, s)], Conf(back, q, q, outer))
  {
    HasQuoted(input, p, s);
    var a, q, stack := AtValue(p, outer, back), p + 1 + |s|, outer + [back];
    Quiet(input, at, ts, a, Conf(QuotedString, p + 1, p + 1, stack));
    QuotedRun(input, at, ts, Conf(QuotedString, p + 1, p + 1, stack), q);
    QuotedEnds(input, at, ts, Conf(QuotedString, p + 1, q, stack), outer, back);
  }

  lemma QuotedEnds(input: string, at: Places, ts: seq<Token>, c: Conf, outer: seq<State>, back: State)
    requires c.state.QuotedString? && c.stack == outer + [back]
    requires Closed(input, at) && at(ts, c) && c.start <= c.pos && At(input, c.pos) == QUOTE
    ensures at(ts + [Token(StringItem, input[c.start..c.pos])], Conf(back, c.pos + 1, c.pos + 1, outer))
  {
    Pops(input, c, outer, back, StringItem, c.pos, c.pos + 1);
    Speaks(input, at, ts, c, Token(StringItem, input[c.start..c.pos]), Conf(back, c.pos + 1, c.pos + 1, outer));
  }

  lemma WordOne(input: string, at: Places, ts: seq<Token>, c: Conf)
    requires c.state.String? && Closed(input, at) && at(ts, c) && 'a' <= At(input, c.pos) <= 'z'
    ensures at(ts, c.(pos := c.pos + 1))
  {
    Quiet(input, at, ts, c, c.(pos := c.pos + 1));
  }

  lemma {:induction false} WordRun(input: string, at: Places, ts: seq<Token>, c: Conf, q: nat)
    requires c.state.String? && Closed(input, at) && at(ts, c)
    requires c.pos <= q <= |input| && forall i :: c.pos <= i < q ==> 'a' <= input[i] <= 'z'
    ensures at(ts, c.(pos := q))
    decreases q - c.pos
  {
    if c.pos < q {
      WordOne(input, at, ts, c);
      WordRun(input, at, ts, c.(pos := c.pos + 1), q);
    } else {
      assert c.(pos := q) == c;
    }
  }

  lemma BoolAt(input: string, p: nat, b: bool)
    requires Has(input, p, Print(CBool(b)) + ['\n'])
    ensures var q := p + |Print(CBool(b))|;
            && p < q <= |input| && input[p..q] == Print(CBool(b)) && At(input, q) == '\n'
            && forall i :: p <= i < q ==> 'a' <= input[i] <= 'z'
  {
    var s := Print(CBool(b));
    HasSplit(input, p, s, ['\n']);
    HasAt(input, p + |s|, ['\n'], 0);
    forall i | p <= i < p + |s| ensures 'a' <= input[i] <= 'z' {
      HasAt(input, p, s, i - p);
    }
  }

  /** A bare word: read to the end of the line. */
  lemma ReadBool(input: string, at: Places, ts: seq<Token>, p: nat, outer: seq<State>, back: State, b: bool)
    requires Closed(input, at) && at(ts, AtValue(p, outer, back)) && Has(input, p, Print(CBool(b)) + ['\n'])
    ensures var q := p + |Print(CBool(b))|;
            at(ts + [LeafToken(CBool(b))], Conf(back, q, q, outer))
  {
    var a, stack, q := AtValue(p, outer, back), outer + [back], p + |Print(CBool(b))|;
    BoolAt(input, p, b);
    Quiet(input, at, ts, a, Conf(String, p, p, stack));
    WordRun(input, at, ts, Conf(String, p, p, stack), q);
    WordEnds(input, at, ts, Conf(String, p, q, stack), outer, back);
  }

  lemma WordStops(input: string, c: Conf)
    requires Bounds(input, c) && c.state.String? && At(input, c.pos) == '\n' && IsBool(input[c.start..c.pos])
    ensures Step(input, c) == EmitPop(input, c, Bool, c.pos, c.pos)
  {
  }

  lemma WordEnds(input: string, at: Places, ts: seq<Token>, c: Conf, outer: seq<State>, back: State)
    requires c.state.String? && c.stack == outer + [back]
    requires Closed(input, at) && at(ts, c) && c.start <= c.pos && At(input, c.pos) == '\n'
    requires IsBool(input[c.start..c.pos])
    ensures at(ts + [Token(Bool, input[c.start..c.pos])], Conf(back, c.pos, c.pos, outer))
  {
    WordStops(input, c);
    Pops(input, c, outer, back, Bool, c.pos, c.pos);
    Speaks(input, at, ts, c, Token(Bool, input[c.start..c.pos]), Conf(back, c.pos, c.pos, outer));
  }

  lemma NumberStops(input: string, c: Conf)
    requires Bounds(input, c) && (c.state.Number? || c.state.NumberOrDate?) && At(input, c.pos) == '\n'
    ensures Step(input, c) == EmitPop(input, c, Integer, c.pos, c.pos)
  {
  }

  lemma NumberEnds(input: string, at: Places, ts: seq<Token>, c: Conf, outer: seq<State>, back: State)
    requires (c.state.Number? || c.state.NumberOrDate?) && c.stack == outer + [back]
    requires Closed(input, at) && at(ts, c) && c.start <= c.pos && At(input, c.pos) == '\n'
    ensures at(ts + [Token(Integer, input[c.start..c.pos])], Conf(back, c.pos, c.pos, outer))
  {
    NumberStops(input, c);
    Pops(input, c, outer, back, Integer, c.pos, c.pos);
    Speaks(input, at, ts, c, Token(Integer, input[c.start..c.pos]), Conf(back, c.pos, c.pos, outer));
  }

  /** The number up to the end of its line, its first digit at c.pos. */
  lemma NumberTail(input: string, at: Places, ts: seq<Token>, c: Conf, q: nat, outer: seq<State>, back: State)
    requires c.state.NumberStart? || c.state.NumberOrDateStart?
    requires c.stack == outer + [back] && Closed(input, at) && at(ts, c)
    requires c.start <= c.pos < q <= |input| && At(input, q) == '\n'
    requires forall i :: c.pos <= i < q ==> IsDigit(input[i])
    ensures at(ts + [Token(Integer, input[c.start..q])], Conf(back, q, q, outer))
  {
    var c' := Conf(if c.state.NumberStart? then Number else NumberOrDate, c.start, c.pos + 1, c.stack);
    Quiet(input, at, ts, c, c');
    DigitRun(input, at, ts, c', q);
    NumberEnds(input, at, ts, c'.(pos := q), outer, back);
  }

  lemma ReadInt(input: string, at: Places, ts: seq<Token>, p: nat, outer: seq<State>, back: State, n: int)
    requires Closed(input, at) && at(ts, AtValue(p, outer, back)) && Has(input, p, Numeral(n) + ['\n'])
    ensures var q := p + |Numeral(n)|;
            at(ts + [LeafToken(CInt(n))], Conf(back, q, q, outer))
  {
    var a, s, stack := AtValue(p, outer, back), Numeral(n), outer + [back];
    var q, d := p + |s|, if n < 0 then p + 1 else p;
    NumeralAt(input, p, n);
    var c := if n < 0 then Conf(NumberStart, p, p + 1, stack) else Conf(NumberOrDateStart, p, p, stack);
    Quiet(input, at, ts, a, c);
    NumberTail(input, at, ts, c, q, outer, back);
  }

  lemma NumeralAt(input: string, p: nat, n: int)
    requires Has(input, p, Numeral(n) + ['\n'])
    ensures var q, d := p + |Numeral(n)|, if n < 0 then p + 1 else p;
            && d < q <= |input| && input[p..q] == Numeral(n) && At(input, q) == '\n'
            && (n < 0 ==> At(input, p) == '-') && forall i :: d <= i < q ==> IsDigit(input[i])
  {
    var s := Numeral(n);
    var q, d := p + |s|, if n < 0 then p + 1 else p;
    HasSplit(input, p, s, ['\n']);
    HasAt(input, q, ['\n'], 0);
    DecimalDigits(if n < 0 then -n else n);
    forall i | d <= i < q ensures IsDigit(input[i]) {
      assert input[i] == s[i - p];
    }
    if n < 0 { HasAt(input, p, s, 0); }
  }

  // Brackets, separators and keys

  /** What a printed value, or a block, can begin with. */
  predicate Starts(r: char) {
    r == QUOTE || r == '[' || r == '{' || r == '(' || r == '-' || IsDigit(r) || r == 't' || r == 'f'
  }

  lemma PrintStarts(c: Config)
    ensures Print(c) != [] && Starts(Print(c)[0])
  {
    if c.CInt? { DecimalDigits(if c.i < 0 then -c.i else c.i); }
  }

  lemma Opens(input: string, at: Places, ts: seq<Token>, p: nat, outer: seq<State>, back: State)
    requires Closed(input, at) && at(ts, AtValue(p, outer, back)) && (At(input, p) == '[' || At(input, p) == '{')
    ensures var list := At(input, p) == '[';
            at(ts + [Token(if list then ArrayOpen else MapOpen, "")],
                     Conf(if list then ArrayValue else MapKeyStart, p + 1, p + 1, outer + [back]))
  {
    var a, list := AtValue(p, outer, back), At(input, p) == '[';
    assert input[p + 1..p + 1] == "";
    Speaks(input, at, ts, a, Token(if list then ArrayOpen else MapOpen, ""),
           Conf(if list then ArrayValue else MapKeyStart, p + 1, p + 1, outer + [back]));
  }

  lemma BracketStops(input: string, c: Conf)
    requires Bounds(input, c) && (c.state.ArrayEnd? || c.state.MapEnd?)
    ensures var k := if c.state.ArrayEnd? then ArrayClose else MapClose;
            Step(input, c) == EmitPop(input, c.(start := c.pos), k, c.pos, c.pos)
  {
  }

  lemma CloseEnds(input: string, at: Places, ts: seq<Token>, c: Conf, outer: seq<State>, back: State)
    requires (c.state.ArrayEnd? || c.state.MapEnd?) && Closed(input, at) && at(ts, c) && c.stack == outer + [back]
    ensures at(ts + [Token(if c.state.ArrayEnd? then ArrayClose else MapClose, "")],
                     Conf(back, c.pos, c.pos, outer))
  {
    var k := if c.state.ArrayEnd? then ArrayClose else MapClose;
    BracketStops(input, c);
    Pops(input, c.(start := c.pos), outer, back, k, c.pos, c.pos);
    assert input[c.pos..c.pos] == "";
    Speaks(input, at, ts, c, Token(k, ""), Conf(back, c.pos, c.pos, outer));
  }

  lemma ClosesList(input: string, at: Places, ts: seq<Token>, p: nat, outer: seq<State>, back: State)
    requires Closed(input, at) && at(ts, Conf(ArrayValue, p, p, outer + [back])) && At(input, p) == ']'
    ensures at(ts + [Token(ArrayClose, "")], Conf(back, p + 1, p + 1, outer))
  {
    var stack := outer + [back];
    Quiet(input, at, ts, Conf(ArrayValue, p, p, stack), Conf(ArrayEnd, p, p + 1, stack));
    CloseEnds(input, at, ts, Conf(ArrayEnd, p, p + 1, stack), outer, back);
  }

  lemma Skips(input: string, at: Places, ts: seq<Token>, start: nat, p: nat, stack: seq<State>, next: State)
    requires Closed(input, at) && at(ts, Conf(Skip(next), start, p, stack))
    ensures at(ts, Conf(next, p, p, stack))
  {
    Quiet(input, at, ts, Conf(Skip(next), start, p, stack), Conf(next, p, p, stack));
  }

  lemma ClosesMap(input: string, at: Places, ts: seq<Token>, p: nat, outer: seq<State>, back: State)
    requires Closed(input, at) && at(ts, Conf(MapKeyStart, p, p, outer + [back])) && At(input, p) == '}'
    ensures at(ts + [Token(MapClose, "")], Conf(back, p + 1, p + 1, outer))
  {
    var stack := outer + [back];
    Quiet(input, at, ts, Conf(MapKeyStart, p, p, stack), Conf(Skip(MapEnd), p, p + 1, stack));
    Skips(input, at, ts, p, p + 1, stack, MapEnd);
    CloseEnds(input, at, ts, Conf(MapEnd, p + 1, p + 1, stack), outer, back);
  }

  lemma EntersElement(input: string, at: Places, ts: seq<Token>, p: nat, stack: seq<State>)
    requires Closed(input, at) && at(ts, Conf(ArrayValue, p, p, stack)) && Starts(At(input, p))
    ensures at(ts, AtValue(p, stack, ArrayValueEnd))
  {
    Quiet(input, at, ts, Conf(ArrayValue, p, p, stack), AtValue(p, stack, ArrayValueEnd));
  }

  /** A newline after a value leads on to where the next element or key may stand. */
  lemma Separates(input: string, at: Places, ts: seq<Token>, p: nat, stack: seq<State>, back: State)
    requires AfterValue(back) && Closed(input, at) && at(ts, Conf(back, p, p, stack)) && At(input, p) == '\n'
    ensures at(ts, Conf(NextAfter(back), p + 1, p + 1, stack))
  {
    if back.TopValueEnd? {
      Quiet(input, at, ts, Conf(back, p, p, stack), Conf(Top, p + 1, p + 1, stack));
    } else {
      Quiet(input, at, ts, Conf(back, p, p, stack), Conf(Skip(NextAfter(back)), p, p + 1, stack));
      Skips(input, at, ts, p, p + 1, stack, NextAfter(back));
    }
  }

  function NextAfter(back: State): State
    requires AfterValue(back)
  {
    if back.TopValueEnd? then Top else if back.ArrayValueEnd? then ArrayValue else MapKeyStart
  }

  /** Where a key may stand, and the continuation of its value: at the top level or in a map. */
  function KeyPlace(top: bool, p: nat, stack: seq<State>): Conf {
    Conf(if top then Top else MapKeyStart, p, p, stack)
  }

  function AfterEntry(top: bool): State { if top then TopValueEnd else MapValueEnd }

  lemma OpensTopKey(input: string, at: Places, ts: seq<Token>, p: nat, stack: seq<State>)
    requires Closed(input, at) && at(ts, Conf(Top, p, p, stack)) && At(input, p) == QUOTE
    ensures at(ts, Conf(QuotedKey, p + 1, p + 1, stack + [TopValueEnd]))
  {
    var outer := stack + [TopValueEnd];
    Quiet(input, at, ts, Conf(Top, p, p, stack), Conf(KeyStart, p, p, outer));
    Quiet(input, at, ts, Conf(KeyStart, p, p, outer), Conf(Skip(QuotedKey), p, p + 1, outer));
    Skips(input, at, ts, p, p + 1, outer, QuotedKey);
  }

  lemma OpensMapKey(input: string, at: Places, ts: seq<Token>, p: nat, stack: seq<State>)
    requires Closed(input, at) && at(ts, Conf(MapKeyStart, p, p, stack)) && At(input, p) == QUOTE
    ensures at(ts, Conf(MapQuotedKey, p + 1, p + 1, stack))
  {
    Quiet(input, at, ts, Conf(MapKeyStart, p, p, stack), Conf(Skip(MapQuotedKey), p, p + 1, stack));
    Skips(input, at, ts, p, p + 1, stack, MapQuotedKey);
  }

  /** From the opening quote of a key to past its closing one. */
  lemma ReadKeyText(input: string, at: Places, ts: seq<Token>, c: Conf, k: string)
    requires (c.state.QuotedKey? || c.state.MapQuotedKey?) && c.start == c.pos > 0
    requires Closed(input, at) && at(ts, c) && Has(input, c.pos - 1, Quoted(k)) && QUOTE !in k
    ensures var end, q := if c.state.QuotedKey? then KeyEnd else MapKeyEnd, c.pos + |k| + 1;
            at(ts + [Token(KeyItem, k)], Conf(end, q, q, c.stack))
  {
    var q := c.pos + |k|;
    HasQuoted(input, c.pos - 1, k);
    QuotedRun(input, at, ts, c, q);
    EndsKeyText(input, at, ts, c.(pos := q));
  }

  lemma EndsKeyText(input: string, at: Places, ts: seq<Token>, c: Conf)
    requires (c.state.QuotedKey? || c.state.MapQuotedKey?) && c.start <= c.pos && At(input, c.pos) == QUOTE
    requires Closed(input, at) && at(ts, c)
    ensures var end := if c.state.QuotedKey? then KeyEnd else MapKeyEnd;
            at(ts + [Token(KeyItem, input[c.start..c.pos])], Conf(end, c.pos + 1, c.pos + 1, c.stack))
  {
    var end := if c.state.QuotedKey? then KeyEnd else MapKeyEnd;
    var t := Token(KeyItem, input[c.start..c.pos]);
    Speaks(input, at, ts, c, t, Conf(Skip(end), c.pos, c.pos + 1, c.stack));
    Skips(input, at, ts + [t], c.pos, c.pos + 1, c.stack, end);
  }

  lemma PassesTopSeparator(input: string, at: Places, ts: seq<Token>, p: nat, outer: seq<State>)
    requires Closed(input, at) && at(ts, Conf(KeyEnd, p, p, outer)) && At(input, p) == '='
    ensures at(ts, Conf(Value, p + 1, p + 1, outer))
  {
    Quiet(input, at, ts, Conf(KeyEnd, p, p, outer), Conf(Skip(Value), p, p + 1, outer));
    Skips(input, at, ts, p, p + 1, outer, Value);
  }

  lemma PassesMapSeparator(input: string, at: Places, ts: seq<Token>, p: nat, stack: seq<State>)
    requires Closed(input, at) && at(ts, Conf(MapKeyEnd, p, p, stack)) && At(input, p) == '='
    ensures at(ts, Conf(MapValue, p + 1, p + 1, stack))
  {
    Quiet(input, at, ts, Conf(MapKeyEnd, p, p, stack), Conf(Skip(MapValue), p, p + 1, stack));
    Skips(input, at, ts, p, p + 1, stack, MapValue);
  }

  lemma EntersMapValue(input: string, at: Places, ts: seq<Token>, p: nat, stack: seq<State>)
    requires Closed(input, at) && at(ts, Conf(MapValue, p, p, stack)) && Starts(At(input, p))
    ensures at(ts, AtValue(p, stack, MapValueEnd))
  {
    Quiet(input, at, ts, Conf(MapValue, p, p, stack), AtValue(p, stack, MapValueEnd));
  }

  lemma ReadKey(input: string, at: Places, ts: seq<Token>, top: bool, p: nat, stack: seq<State>, k: string)
    requires Closed(input, at) && at(ts, KeyPlace(top, p, stack)) && Has(input, p, Quoted(k)) && QUOTE !in k
    requires At(input, p + |k| + 2) == '=' && Starts(At(input, p + |k| + 3))
    ensures at(ts + [Token(KeyItem, k)], AtValue(p + |k| + 3, stack, AfterEntry(top)))
  {
    var q, ts' := p + |k| + 2, ts + [Token(KeyItem, k)];
    HasQuoted(input, p, k);
    if top {
      OpensTopKey(input, at, ts, p, stack);
      ReadKeyText(input, at, ts, Conf(QuotedKey, p + 1, p + 1, stack + [TopValueEnd]), k);
      PassesTopSeparator(input, at, ts', q, stack + [TopValueEnd]);
    } else {
      OpensMapKey(input, at, ts, p, stack);
      ReadKeyText(input, at, ts, Conf(MapQuotedKey, p + 1, p + 1, stack), k);
      PassesMapSeparator(input, at, ts', q, stack);
      EntersMapValue(input, at, ts', q + 1, stack);
    }
  }

  // Whole values

  /** A value on the rest of a line. */
  lemma ValueAt(input: string, p: nat, c: Config)
    requires Has(input, p, Print(c) + ['\n'])
    ensures Starts(At(input, p)) && At(input, p + |Print(c)|) == '\n'
  {
    var s := Print(c);
    HasSplit(input, p, s, ['\n']);
    PrintStarts(c);
    HasAt(input, p, s, 0);
    HasAt(input, p + |s|, ['\n'], 0);
  }

  lemma ListAt(input: string, p: nat, es: seq<Config>)
    requires es != [] && Has(input, p, PrintList(es))
    ensures Has(input, p, Print(es[0]) + ['\n']) && Has(input, p + |Print(es[0])| + 1, PrintList(es[1..]))
  {
    HasSplit(input, p, Print(es[0]) + ['\n'], PrintList(es[1..]));
  }

  lemma KeyAt(input: string, p: nat, k: string)
    requires Has(input, p, Quoted(k) + ['='])
    ensures Has(input, p, Quoted(k)) && At(input, p + |k| + 2) == '='
  {
    HasSplit(input, p, Quoted(k), ['=']);
    HasAt(input, p + |k| + 2, ['='], 0);
  }

  lemma EntriesAt(input: string, p: nat, entries: seq<Binding>)
    requires entries != [] && Has(input, p, PrintEntries(entries))
    ensures var Binding(k, c) := entries[0];
            var q := p + |k| + 3;
            && Has(input, p, Quoted(k) + ['=']) && Has(input, q, Print(c) + ['\n'])
            && Has(input, q + |Print(c)| + 1, PrintEntries(entries[1..]))
  {
    var Binding(k, c) := entries[0];
    var key, line := Quoted(k) + ['='], Print(c) + ['\n'];
    HasSplit(input, p, key + line, PrintEntries(entries[1..]));
    HasSplit(input, p, key, line);
  }

  /** A printed value is read as the tokens of its node, whatever stands around it. */
  lemma {:induction false} ReadValue(input: string, at: Places, ts: seq<Token>, p: nat, outer: seq<State>, back: State,
                                     c: Config)
    requires Closed(input, at) && at(ts, AtValue(p, outer, back)) && Writable(c) && Has(input, p, Print(c) + ['\n'])
    ensures var q := p + |Print(c)|;
            at(ts + Flatten(NodeOf(c)), Conf(back, q, q, outer))
    decreases c, 0
  {
    HasSplit(input, p, Print(c), ['\n']);
    match c
    case CStr(s) => ReadString(input, at, ts, p, outer, back, s);
    case CInt(i) => ReadInt(input, at, ts, p, outer, back, i);
    case CBool(b) => ReadBool(input, at, ts, p, outer, back, b);
    case CArr(es) => ReadArray(input, at, ts, p, outer, back, es);
    case CMap(entries) => ReadMap(input, at, ts, p, outer, back, entries);
  }

  lemma BracketAt(input: string, p: nat, open: char, s: string, close: char)
    requires Has(input, p, [open] + s + [close])
    ensures At(input, p) == open && Has(input, p + 1, s) && At(input, p + 1 + |s|) == close
  {
    HasSplit(input, p, [open] + s, [close]);
    HasSplit(input, p, [open], s);
    HasAt(input, p, [open], 0);
    HasAt(input, p + 1 + |s|, [close], 0);
  }

  lemma Enclosed(ts: seq<Token>, open: Token, inside: seq<Token>, close: Token)
    ensures ts + ([open] + inside + [close]) == ts + [open] + inside + [close]
  {
  }

  lemma {:induction false} ReadArray(input: string, at: Places, ts: seq<Token>, p: nat, outer: seq<State>, back: State,
                                     es: seq<Config>)
    requires Closed(input, at) && at(ts, AtValue(p, outer, back)) && Has(input, p, ['['] + PrintList(es) + [']'])
    requires forall i :: 0 <= i < |es| ==> Writable(es[i])
    ensures var q := p + |PrintList(es)| + 2;
            at(ts + Flatten(List(NodesOf(es))), Conf(back, q, q, outer))
    decreases es, 2
  {
    var ts' := ts + [Token(ArrayOpen, "")];
    BracketAt(input, p, '[', PrintList(es), ']');
    Opens(input, at, ts, p, outer, back);
    ReadList(input, at, ts', p + 1, outer + [back], es);
    ClosesList(input, at, ts' + FlattenList(NodesOf(es)), p + 1 + |PrintList(es)|, outer, back);
    Enclosed(ts, Token(ArrayOpen, ""), FlattenList(NodesOf(es)), Token(ArrayClose, ""));
  }

  lemma {:induction false} ReadMap(input: string, at: Places, ts: seq<Token>, p: nat, outer: seq<State>, back: State,
                                   entries: seq<Binding>)
    requires Closed(input, at) && at(ts, AtValue(p, outer, back))
    requires Has(input, p, ['{'] + PrintEntries(entries) + ['}'])
    requires forall i :: 0 <= i < |entries| ==> QUOTE !in entries[i].key && Writable(entries[i].value)
    ensures var q := p + |PrintEntries(entries)| + 2;
            at(ts + Flatten(Object(EntriesOf(entries))), Conf(back, q, q, outer))
    decreases entries, 2
  {
    var ts' := ts + [Token(MapOpen, "")];
    BracketAt(input, p, '{', PrintEntries(entries), '}');
    Opens(input, at, ts, p, outer, back);
    ReadEntries(input, at, ts', false, p + 1, outer + [back], entries);
    ClosesMap(input, at, ts' + FlattenEntries(EntriesOf(entries)), p + 1 + |PrintEntries(entries)|, outer, back);
    Enclosed(ts, Token(MapOpen, ""), FlattenEntries(EntriesOf(entries)), Token(MapClose, ""));
  }

  lemma {:induction false} ReadList(input: string, at: Places, ts: seq<Token>, p: nat, stack: seq<State>,
                                    es: seq<Config>)
    requires Closed(input, at) && at(ts, Conf(ArrayValue, p, p, stack)) && Has(input, p, PrintList(es))
    requires forall i :: 0 <= i < |es| ==> Writable(es[i])
    ensures var q := p + |PrintList(es)|;
            at(ts + FlattenList(NodesOf(es)), Conf(ArrayValue, q, q, stack))
    decreases es, 1
  {
    if es == [] {
      assert ts + [] == ts;
    } else {
      ListAt(input, p, es);
      var ts', q := ReadElement(input, at, ts, p, stack, es[0]);
      ReadList(input, at, ts', q, stack, es[1..]);
      ListFlattens(ts, es);
    }
  }

  lemma ListFlattens(ts: seq<Token>, es: seq<Config>)
    requires es != []
    ensures ts + FlattenList(NodesOf(es)) == ts + Flatten(NodeOf(es[0])) + FlattenList(NodesOf(es[1..]))
  {
    assert NodesOf(es)[0] == NodeOf(es[0]) && NodesOf(es)[1..] == NodesOf(es[1..]);
  }

  lemma {:induction false} ReadElement(input: string, at: Places, ts: seq<Token>, p: nat, stack: seq<State>, c: Config)
    returns (ts': seq<Token>, q: nat)
    requires Closed(input, at) && at(ts, Conf(ArrayValue, p, p, stack))
    requires Writable(c) && Has(input, p, Print(c) + ['\n'])
    ensures ts' == ts + Flatten(NodeOf(c)) && q == p + |Print(c)| + 1
    ensures at(ts', Conf(ArrayValue, q, q, stack))
    decreases c, 2
  {
    ValueAt(input, p, c);
    EntersElement(input, at, ts, p, stack);
    ts', q := ReadLine(input, at, ts, p, stack, ArrayValueEnd, c);
  }

  /** A value and the newline after it. */
  lemma {:induction false} ReadLine(input: string, at: Places, ts: seq<Token>, p: nat, stack: seq<State>, back: State,
                                    c: Config)
    returns (ts': seq<Token>, q: nat)
    requires AfterValue(back) && Closed(input, at) && at(ts, AtValue(p, stack, back))
    requires Writable(c) && Has(input, p, Print(c) + ['\n'])
    ensures ts' == ts + Flatten(NodeOf(c)) && q == p + |Print(c)| + 1
    ensures at(ts', Conf(NextAfter(back), q, q, stack))
    decreases c, 1
  {
    ts', q := ts + Flatten(NodeOf(c)), p + |Print(c)| + 1;
    ReadValue(input, at, ts, p, stack, back, c);
    ValueAt(input, p, c);
    Separates(input, at, ts', q - 1, stack, back);
  }

  lemma {:induction false} ReadEntries(input: string, at: Places, ts: seq<Token>, top: bool, p: nat, stack: seq<State>,
                                       entries: seq<Binding>)
    requires Closed(input, at) && at(ts, KeyPlace(top, p, stack)) && Has(input, p, PrintEntries(entries))
    requires forall i :: 0 <= i < |entries| ==> QUOTE !in entries[i].key && Writable(entries[i].value)
    ensures at(ts + FlattenEntries(EntriesOf(entries)), KeyPlace(top, p + |PrintEntries(entries)|, stack))
    decreases entries, 1
  {
    if entries == [] {
      assert ts + [] == ts;
    } else {
      EntriesAt(input, p, entries);
      var ts', q := ReadEntry(input, at, ts, top, p, stack, entries[0].key, entries[0].value);
      ReadEntries(input, at, ts', top, q, stack, entries[1..]);
      EntriesFlatten(ts, entries);
    }
  }

  lemma {:induction false} ReadEntry(input: string, at: Places, ts: seq<Token>, top: bool, p: nat, stack: seq<State>,
                                     k: string, c: Config)
    returns (ts': seq<Token>, q: nat)
    requires Closed(input, at) && at(ts, KeyPlace(top, p, stack)) && QUOTE !in k && Writable(c)
    requires Has(input, p, Quoted(k) + ['=']) && Has(input, p + |k| + 3, Print(c) + ['\n'])
    ensures ts' == ts + [Token(KeyItem, k)] + Flatten(NodeOf(c)) && q == p + |k| + 3 + |Print(c)| + 1
    ensures at(ts', KeyPlace(top, q, stack))
    decreases c, 2
  {
    KeyAt(input, p, k);
    ValueAt(input, p + |k| + 3, c);
    ReadKey(input, at, ts, top, p, stack, k);
    ts', q := ReadLine(input, at, ts + [Token(KeyItem, k)], p + |k| + 3, stack, AfterEntry(top), c);
  }

  lemma EntriesFlatten(ts: seq<Token>, entries: seq<Binding>)
    requires entries != []
    ensures ts + FlattenEntries(EntriesOf(entries)) ==
            ts + [Token(KeyItem, entries[0].key)] + Flatten(NodeOf(entries[0].value))
            + FlattenEntries(EntriesOf(entries[1..]))
  {
    var Binding(k, c) := entries[0];
    assert EntriesOf(entries)[0] == Entry(k, NodeOf(c)) && EntriesOf(entries)[1..] == EntriesOf(entries[1..]);
  }

  // Whole documents

  /** The places of the run on an input. */
  ghost function RunOn(input: string): Places {
    (ts, c) => Inv(input, c) && Inv(input, START) && Tokens(input, START) == ts + Tokens(input, c)
  }

  lemma RunIsClosed(input: string)
    ensures Closed(input, RunOn(input)) && RunOn(input)([], START)
  {
    assert [] + Tokens(input, START) == Tokens(input, START);
    forall ts, c | RunOn(input)(ts, c)
      ensures Inv(input, c) && (!Settled(input, c) ==> RunOn(input)(ts + Out(Step(input, c)), Step(input, c).to))
    {
      if !Settled(input, c) {
        TokensStep(input, c);
        Regroup(ts, Out(Step(input, c)), Tokens(input, Step(input, c).to));
      }
    }
  }

  lemma Regroup(ts: seq<Token>, us: seq<Token>, rest: seq<Token>)
    ensures ts + (us + rest) == ts + us + rest
  {
  }

  lemma EndStep(input: string)
    ensures var c := Conf(Top, |input|, |input|, []);
            Inv(input, c) && Step(input, c).to.state.Halted? && Out(Step(input, c)) == [Token(EOF, "")]
  {
    assert input[|input|..|input|] == "";
  }

  lemma LastTokens(input: string, c: Conf)
    requires Inv(input, c) && !Settled(input, c) && Step(input, c).to.state.Halted?
    ensures Tokens(input, c) == Out(Step(input, c))
  {
    assert Out(Step(input, c)) + [] == Out(Step(input, c));
  }

  /** A run that comes to the end of the input at the top level has delivered all but EOF. */
  lemma RunEnds(input: string, ts: seq<Token>)
    requires RunOn(input)(ts, Conf(Top, |input|, |input|, []))
    ensures Inv(input, START) && Tokens(input, START) == ts + [Token(EOF, "")]
  {
    EndTokens(input);
  }

  lemma EndTokens(input: string)
    ensures var c := Conf(Top, |input|, |input|, []); Inv(input, c) && Tokens(input, c) == [Token(EOF, "")]
  {
    EndStep(input);
    LastTokens(input, Conf(Top, |input|, |input|, []));
  }

  lemma ReadDocument(input: string, at: Places, entries: seq<Binding>)
    requires Closed(input, at) && at([], START) && Writable(CMap(entries)) && input == PrintEntries(entries)
    ensures at(FlattenEntries(EntriesOf(entries)), Conf(Top, |input|, |input|, []))
  {
    assert input[0..0 + |input|] == input;
    ReadEntries(input, at, [], true, 0, [], entries);
    assert [] + FlattenEntries(EntriesOf(entries)) == FlattenEntries(EntriesOf(entries));
  }

  lemma DocumentTokens(entries: seq<Binding>)
    requires Writable(CMap(entries))
    ensures var text := PrintEntries(entries);
            Inv(text, START) && Tokens(text, START) == FlattenEntries(EntriesOf(entries)) + [Token(EOF, "")]
  {
    var text := PrintEntries(entries);
    RunIsClosed(text);
    ReadDocument(text, RunOn(text), entries);
    RunEnds(text, FlattenEntries(EntriesOf(entries)));
  }

  /** A configuration written out is read back: the parser builds exactly its value. */
  lemma PrintedIsReadBack(entries: seq<Binding>)
    requires Writable(CMap(entries))
    ensures Parse(PrintEntries(entries)) == Tree(Builder([ValueOf(CMap(entries))], []))
  {
    DocumentTokens(entries);
    BuildDocument(EntriesOf(entries), [Token(EOF, "")]);
    Denotes(CMap(entries));
  }

  // Values

  predicate DistinctKeys(entries: seq<Binding>) {
    forall i, j :: 0 <= i < j < |entries| ==> entries[i].key != entries[j].key
  }

  /** With distinct keys, a table binds exactly the keys written, each to its own value. */
  lemma {:induction false} EveryEntryIsBound(entries: seq<Binding>)
    requires DistinctKeys(entries)
    ensures forall i :: 0 <= i < |entries| ==>
              entries[i].key in TableOf(entries) && TableOf(entries)[entries[i].key] == ValueOf(entries[i].value)
    ensures forall k :: k in TableOf(entries) ==> exists i :: 0 <= i < |entries| && entries[i].key == k
  {
    if entries != [] {
      var rest := entries[1..];
      EveryEntryIsBound(rest);
      forall i | 0 <= i < |entries|
        ensures entries[i].key in TableOf(entries) && TableOf(entries)[entries[i].key] == ValueOf(entries[i].value)
      {
        if i > 0 { assert entries[i] == rest[i - 1]; }
      }
      forall k | k in TableOf(entries) ensures exists i :: 0 <= i < |entries| && entries[i].key == k {
        if k in TableOf(rest) {
          var i :| 0 <= i < |rest| && rest[i].key == k;
          assert entries[i + 1].key == k;
        } else {
          assert entries[0].key == k;
        }
      }
    }
  }

  /** Values that a configuration can be written for. */
  predicate Expressible(v: Value)
  {
    match v
    case Str(s) => QUOTE !in s
    case Int(i) => -INT64_LIMIT <= i < INT64_LIMIT
    case Boolean(_) => true
    case Other(_, _) => false
    case Arr(es) => forall i :: 0 <= i < |es| ==> Expressible(es[i])
    case Table(m) => forall k :: k in m ==> QUOTE !in k && Expressible(m[k])
  }

  lemma {:induction false} ConfigOf(v: Value) returns (c: Config)
    requires Expressible(v)
    ensures Writable(c) && ValueOf(c) == v
    decreases v, 1, 0
  {
    match v
    case Str(s) => c := CStr(s);
    case Int(i) => c := CInt(i);
    case Boolean(b) => c := CBool(b);
    case Arr(es) => var cs := ListOf(v, 0); c := CArr(cs);
    case Table(m) => var bs := BindingsOf(v, m.Keys); assert TableOf(bs) == m; c := CMap(bs);
  }

  lemma {:induction false} ListOf(v: Value, i: nat) returns (cs: seq<Config>)
    requires v.Arr? && Expressible(v) && i <= |v.es|
    ensures (forall j :: 0 <= j < |cs| ==> Writable(cs[j])) && ValuesOf(cs) == v.es[i..]
    decreases v, 0, |v.es| - i
  {
    if i == |v.es| {
      cs := [];
    } else {
      var c := ConfigOf(v.es[i]);
      var rest := ListOf(v, i + 1);
      cs := [c] + rest;
      assert cs[1..] == rest && v.es[i..] == [v.es[i]] + v.es[i + 1..];
    }
  }

  lemma OneMore(k: string, c: Config, keys: set<string>, rest: seq<Binding>) returns (bs: seq<Binding>)
    requires QUOTE !in k && Writable(c) && Writable(CMap(rest)) && DistinctKeys(rest) && k in keys
    requires forall i :: 0 <= i < |rest| ==> rest[i].key in keys - {k}
    ensures Writable(CMap(bs)) && DistinctKeys(bs) && TableOf(bs) == map[k := ValueOf(c)] + TableOf(rest)
    ensures forall i :: 0 <= i < |bs| ==> bs[i].key in keys
  {
    bs := [Binding(k, c)] + rest;
    assert bs[1..] == rest;
  }

  lemma {:induction false} BindingsOf(v: Value, keys: set<string>) returns (bs: seq<Binding>)
    requires v.Table? && forall k :: k in keys ==> k in v.m && QUOTE !in k && Expressible(v.m[k])
    ensures Writable(CMap(bs)) && DistinctKeys(bs)
    ensures TableOf(bs).Keys == keys && forall k :: k in keys ==> TableOf(bs)[k] == v.m[k]
    ensures forall i :: 0 <= i < |bs| ==> bs[i].key in keys
    decreases v, 0, |keys|
  {
    if keys == {} {
      bs := [];
    } else {
      var k :| k in keys;
      var c := ConfigOf(v.m[k]);
      var rest := BindingsOf(v, keys - {k});
      bs := OneMore(k, c, keys, rest);
    }
  }

  /** Every table of strings and keys without quotes, of 64-bit integers, booleans, arrays
      and tables is what the parser makes of some text. */
  lemma EveryTableIsParsed(v: Value) returns (text: string)
    requires v.Table? && Expressible(v)
    ensures Parse(text) == Tree(Builder([v], []))
  {
    var c := ConfigOf(v);
    text := PrintEntries(c.entries);
    PrintedIsReadBack(c.entries);
  }

  // A key without a value in a map

  /** A map closed right after a key, as the value of another key. */
  function Dangling(x: string, k: string): string {
    Quoted(x) + ['='] + (['{'] + Quoted(k) + ['}']) + ['\n']
  }

  lemma DanglingAt(input: string, x: string, k: string)
    requires input == Dangling(x, k)
    ensures var p := |x| + 3; var q := p + |k| + 3;
            && Has(input, 0, Quoted(x)) && At(input, p - 1) == '=' && At(input, p) == '{'
            && Has(input, p + 1, Quoted(k)) && At(input, q) == '}' && At(input, q + 1) == '\n' && |input| == q + 2
  {
    var p := |x| + 3;
    var map_ := ['{'] + Quoted(k) + ['}'];
    assert input[0..0 + |input|] == input;
    HasSplit(input, 0, Quoted(x) + ['='] + map_, ['\n']);
    HasAt(input, p + |k| + 4, ['\n'], 0);
    HasSplit(input, 0, Quoted(x) + ['='], map_);
    KeyAt(input, 0, x);
    BracketAt(input, p, '{', Quoted(k), '}');
  }

  /** The key is let go: what follows it is read as if there had been none. */
  lemma DropsTheKey(input: string, at: Places, ts: seq<Token>, p: nat, outer: seq<State>, back: State)
    requires Closed(input, at) && at(ts, Conf(MapKeyEnd, p, p, outer + [back])) && At(input, p) == '}'
    ensures at(ts + [Token(MapClose, "")], Conf(back, p + 1, p + 1, outer))
  {
    var stack := outer + [back];
    Quiet(input, at, ts, Conf(MapKeyEnd, p, p, stack), Conf(MapValue, p, p, stack));
    Quiet(input, at, ts, Conf(MapValue, p, p, stack), Conf(Skip(MapEnd), p, p + 1, stack));
    Skips(input, at, ts, p, p + 1, stack, MapEnd);
    CloseEnds(input, at, ts, Conf(MapEnd, p + 1, p + 1, stack), outer, back);
  }

  lemma ReadDangling(input: string, at: Places, x: string, k: string)
    requires Closed(input, at) && at([], START) && input == Dangling(x, k) && QUOTE !in x && QUOTE !in k
    ensures at([] + [Token(KeyItem, x)] + [Token(MapOpen, "")] + [Token(KeyItem, k)] + [Token(MapClose, "")],
               Conf(Top, |input|, |input|, []))
  {
    var p := |x| + 3;
    var q := p + |k| + 3;
    DanglingAt(input, x, k);
    ReadKey(input, at, [], true, 0, [], x);
    var ts := [] + [Token(KeyItem, x)];
    Opens(input, at, ts, p, [], TopValueEnd);
    ts := ts + [Token(MapOpen, "")];
    OpensMapKey(input, at, ts, p + 1, [] + [TopValueEnd]);
    ReadKeyText(input, at, ts, Conf(MapQuotedKey, p + 2, p + 2, [] + [TopValueEnd]), k);
    ts := ts + [Token(KeyItem, k)];
    DropsTheKey(input, at, ts, q, [], TopValueEnd);
    Separates(input, at, ts + [Token(MapClose, "")], q + 1, [], TopValueEnd);
  }

  /** The map is bound to the key inside it, and the key it was written for is left over. */
  lemma DanglingKeyTakesTheMap(x: string, k: string)
    requires QUOTE !in x && QUOTE !in k
    ensures Parse(Dangling(x, k)) == Tree(Builder([Table(map[k := Table(map[])])], [x]))
  {
    var text := Dangling(x, k);
    var ts := [] + [Token(KeyItem, x)] + [Token(MapOpen, "")] + [Token(KeyItem, k)] + [Token(MapClose, "")];
    RunIsClosed(text);
    ReadDangling(text, RunOn(text), x, k);
    RunEnds(text, ts);
    BuildDangling(x, k);
  }

  lemma BuildDangling(x: string, k: string)
    ensures Build([] + [Token(KeyItem, x)] + [Token(MapOpen, "")] + [Token(KeyItem, k)] + [Token(MapClose, "")]
                  + [Token(EOF, "")], NEW)
            == Tree(Builder([Table(map[k := Table(map[])])], [x]))
  {
    var t0, t1, t2 := Token(KeyItem, x), Token(MapOpen, ""), Token(KeyItem, k);
    var t3, t4 := Token(MapClose, ""), Token(EOF, "");
    assert [] + [t0] + [t1] + [t2] + [t3] + [t4] == [t0] + ([t1] + ([t2] + ([t3] + [t4])));
    var empty := Table(map[]);
    BuildOne(t0, [t1] + ([t2] + ([t3] + [t4])), NEW);
    assert NEW.keys + [x] == [x];
    BuildOne(t1, [t2] + ([t3] + [t4]), Builder([empty], [x]));
    assert [empty] + [empty] == [empty, empty];
    BuildOne(t2, [t3] + [t4], Builder([empty, empty], [x]));
    assert [x] + [k] == [x, k];
    BuildOne(t3, [t4], Builder([empty, empty], [x, k]));
    assert [empty, empty][..1] == [empty] && [x, k][..1] == [x];
    assert [empty][0 := Table(map[k := empty])] == [Table(map[k := empty])];
  }
}
