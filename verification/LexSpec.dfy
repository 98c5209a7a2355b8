/** The configuration lexer as a machine: one step is one call of a state function. */
module LexSpec {

  /** The state functions; Skip(t) is the closure lexSkip returns, Halted the nil state. */
  datatype State =
    | Top | TopValueEnd
    | KeyStart | DubQuotedKey | QuotedKey | Key | KeyEnd
    | Value
    | ArrayValue | ArrayValueEnd | ArrayEnd
    | MapKeyStart | MapQuotedKey | MapDubQuotedKey | MapKey | MapKeyEnd | MapValue | MapValueEnd | MapEnd
    | QuotedString | DubQuotedString | String | Block | StringEscape | StringBinary
    | NumberOrDateStart | NumberOrDate | DateAfterYear | NumberStart | Number | FloatStart | Float
    | CommentStart | Comment
    | Skip(next: State)
    | Halted

  datatype Kind =
    | Error | EOF | KeyItem | Text | StringItem | Bool | Integer | FloatItem | Datetime
    | ArrayOpen | ArrayClose | MapOpen | MapClose | CommentOpen

  datatype Item = Item(kind: Kind, val: string, line: nat)

  /** Between two state functions: the pending input is start..pos, the continuations stack. */
  datatype Conf = Conf(state: State, start: nat, pos: nat, stack: seq<State>)

  datatype Move = Move(to: Conf, out: seq<Item>)

  // Characters

  /** The rune at p; end of input reads as NUL, the `eof` of the source. */
  function At(input: string, p: nat): char {
    if p < |input| then input[p] else '\0'
  }

  /** Where next leaves the position. */
  function After(input: string, p: nat): nat {
    if p < |input| then p + 1 else p
  }

  /** The line of position p. */
  function Line(input: string, p: nat): nat
    requires p <= |input|
  {
    if p == 0 then 1 else Line(input, p - 1) + (if input[p - 1] == '\n' then 1 else 0)
  }

  predicate IsSeparator(r: char) { r == '=' || r == ':' }
  predicate IsWhitespace(r: char) { r == '\t' || r == ' ' }
  predicate IsNL(r: char) { r == '\n' || r == '\r' }
  predicate IsDigit(r: char) { '0' <= r <= '9' }
  predicate IsHexadecimal(r: char) { '0' <= r <= '9' || 'a' <= r <= 'f' || 'A' <= r <= 'F' }
  predicate IsBool(s: string) { s == "true" || s == "false" || s == "TRUE" || s == "FALSE" }

  // What a step can do

  ghost predicate Bounds(input: string, c: Conf) {
    c.start <= c.pos <= |input| && (c.state.Block? ==> c.pos > 0)
  }

  function Go(c: Conf, state: State, pos: nat): Move {
    Move(c.(state := state, pos := pos), [])
  }

  function Push(c: Conf, back: State, state: State, pos: nat): Move {
    Move(c.(state := state, pos := pos, stack := c.stack + [back]), [])
  }

  function Fail(input: string, c: Conf, pos: nat): Move
    requires pos <= |input|
  {
    Move(c.(state := Halted, pos := pos), [Item(Error, "", Line(input, pos))])
  }

  /** Emits the pending input up to `upto`, drops what follows up to `pos`, and goes on. */
  function Emit(input: string, c: Conf, kind: Kind, upto: nat, state: State, pos: nat): Move
    requires c.start <= upto <= |input|
  {
    Move(Conf(state, pos, pos, c.stack), [Item(kind, input[c.start..upto], Line(input, upto))])
  }

  /** Emits and returns to the last continuation pushed. */
  function EmitPop(input: string, c: Conf, kind: Kind, upto: nat, pos: nat): Move
    requires c.start <= upto <= |input| && pos <= |input|
  {
    var item := Item(kind, input[c.start..upto], Line(input, upto));
    if c.stack == [] then
      Move(Conf(Halted, pos, pos, []), [item, Item(Error, "", Line(input, pos))])
    else
      var n := |c.stack| - 1;
      Move(Conf(c.stack[n], pos, pos, c.stack[..n]), [item])
  }

  /** Ignores the pending input before emitting an opening or closing bracket. */
  function Bracket(input: string, c: Conf, kind: Kind, state: State, pos: nat): Move
    requires pos <= |input|
  {
    Emit(input, c.(start := pos), kind, pos, state, pos)
  }

  // Shared shapes of state functions

  /** A comment that starts with # or //, in a place that returns to `back`; otherwise `other`. */
  predicate OpensComment(input: string, p: nat) {
    At(input, p) == '#' || (At(input, p) == '/' && At(input, After(input, p)) == '/')
  }

  function Comments(input: string, c: Conf, back: State): Move {
    var n := After(input, c.pos);
    Push(c, back, CommentStart, if At(input, c.pos) == '#' then n else After(input, n))
  }

  function QuotedKeyStep(input: string, c: Conf, quote: char, end: State): Move
    requires Bounds(input, c)
  {
    var n := After(input, c.pos);
    if At(input, c.pos) == quote then
      Move(Conf(Skip(end), c.pos, n, c.stack), [Item(KeyItem, input[c.start..c.pos], Line(input, c.pos))])
    else Go(c, c.state, n)
  }

  function BareKeyStep(input: string, c: Conf, end: State): Move
    requires Bounds(input, c)
  {
    var r := At(input, c.pos);
    if IsWhitespace(r) || IsNL(r) || IsSeparator(r) then Emit(input, c, KeyItem, c.pos, end, c.pos)
    else Go(c, c.state, After(input, c.pos))
  }

  function KeyEndStep(input: string, c: Conf, value: State): Move {
    var r, n := At(input, c.pos), After(input, c.pos);
    if IsWhitespace(r) || IsNL(r) then Go(c, Skip(c.state), n)
    else if IsSeparator(r) then Go(c, Skip(value), n)
    else Go(c, value, c.pos)
  }

  function QuotedStringStep(input: string, c: Conf, quote: char): Move
    requires Bounds(input, c)
  {
    var n := After(input, c.pos);
    if At(input, c.pos) == quote then EmitPop(input, c, StringItem, c.pos, n) else Go(c, c.state, n)
  }

  // The state functions

  function TopStep(input: string, c: Conf): Move
    requires Bounds(input, c)
  {
    var r, n := At(input, c.pos), After(input, c.pos);
    if IsWhitespace(r) || IsNL(r) then Go(c, Skip(Top), n)
    else if OpensComment(input, c.pos) then Comments(input, c, Top)
    else if r == '/' || r == '\0' then
      if n > c.start then Fail(input, c, n)
      else Emit(input, c, EOF, n, Halted, n)
    else Push(c, TopValueEnd, KeyStart, c.pos)
  }

  function TopValueEndStep(input: string, c: Conf): Move
    requires Bounds(input, c)
  {
    var r, n := At(input, c.pos), After(input, c.pos);
    if OpensComment(input, c.pos) then Comments(input, c, Top)
    else if r == '/' || IsWhitespace(r) then Go(c, TopValueEnd, n)
    else if IsNL(r) || r == '\0' || r == ';' then Move(Conf(Top, n, n, c.stack), [])
    else Fail(input, c, n)
  }

  function KeyStartStep(input: string, c: Conf): Move
    requires Bounds(input, c)
  {
    var r, n := At(input, c.pos), After(input, c.pos);
    if IsSeparator(r) then Fail(input, c, c.pos)
    else if IsWhitespace(r) || IsNL(r) then Go(c, Skip(KeyStart), n)
    else if r == '"' then Go(c, Skip(DubQuotedKey), n)
    else if r == '\'' then Go(c, Skip(QuotedKey), n)
    else Go(c.(start := c.pos), Key, n)
  }

  function ValueStep(input: string, c: Conf): Move
    requires Bounds(input, c)
  {
    var r, n := At(input, c.pos), After(input, c.pos);
    if IsWhitespace(r) then Go(c, Skip(Value), n)
    else if r == '[' then Bracket(input, c, ArrayOpen, ArrayValue, n)
    else if r == '{' then Bracket(input, c, MapOpen, MapKeyStart, n)
    else if r == '\'' then Go(c.(start := n), QuotedString, n)
    else if r == '"' then Go(c.(start := n), DubQuotedString, n)
    else if r == '-' then Go(c, NumberStart, n)
    else if r == '(' then Go(c.(start := n), Block, n)
    else if IsDigit(r) then Go(c, NumberOrDateStart, c.pos)
    else if r == '.' || IsNL(r) then Fail(input, c, n)
    else Go(c, String, c.pos)
  }

  function ArrayValueStep(input: string, c: Conf): Move
    requires Bounds(input, c)
  {
    var r, n := At(input, c.pos), After(input, c.pos);
    if IsWhitespace(r) || IsNL(r) then Go(c, Skip(ArrayValue), n)
    else if OpensComment(input, c.pos) then Comments(input, c, ArrayValue)
    else if r == '/' || r == ',' then Fail(input, c, n)
    else if r == ']' then Go(c, ArrayEnd, n)
    else Push(c, ArrayValueEnd, Value, c.pos)
  }

  function ArrayValueEndStep(input: string, c: Conf): Move
    requires Bounds(input, c)
  {
    var r, n := At(input, c.pos), After(input, c.pos);
    if IsWhitespace(r) then Go(c, Skip(ArrayValueEnd), n)
    else if OpensComment(input, c.pos) then Comments(input, c, ArrayValueEnd)
    else if r == '/' || r == ',' || IsNL(r) then Go(c, Skip(ArrayValue), n)
    else if r == ']' then Go(c, ArrayEnd, n)
    else Fail(input, c, n)
  }

  function MapKeyStartStep(input: string, c: Conf): Move
    requires Bounds(input, c)
  {
    var r, n := At(input, c.pos), After(input, c.pos);
    if IsSeparator(r) then Fail(input, c, c.pos)
    else if IsWhitespace(r) || IsNL(r) then Go(c, Skip(MapKeyStart), n)
    else if r == '}' then Go(c, Skip(MapEnd), n)
    else if OpensComment(input, c.pos) then Comments(input, c, MapKeyStart)
    else if r == '/' then Go(c.(start := n), MapKey, After(input, n))
    else if r == '\'' then Go(c, Skip(MapQuotedKey), n)
    else if r == '"' then Go(c, Skip(MapDubQuotedKey), n)
    else Go(c.(start := c.pos), MapKey, n)
  }

  function MapValueStep(input: string, c: Conf): Move
    requires Bounds(input, c)
  {
    var r, n := At(input, c.pos), After(input, c.pos);
    if IsWhitespace(r) || IsNL(r) then Go(c, Skip(MapValue), n)
    else if r == ',' then Fail(input, c, n)
    else if r == '}' then Go(c, Skip(MapEnd), n)
    else Push(c, MapValueEnd, Value, c.pos)
  }

  function MapValueEndStep(input: string, c: Conf): Move
    requires Bounds(input, c)
  {
    var r, n := At(input, c.pos), After(input, c.pos);
    if IsWhitespace(r) then Go(c, Skip(MapValueEnd), n)
    else if OpensComment(input, c.pos) then Comments(input, c, MapValueEnd)
    else if r == '/' || r == ';' || r == ',' || IsNL(r) then Go(c, Skip(MapKeyStart), n)
    else if r == '}' then Go(c, Skip(MapEnd), n)
    else Fail(input, c, n)
  }

  function StringStep(input: string, c: Conf): Move
    requires Bounds(input, c)
  {
    var r, n := At(input, c.pos), After(input, c.pos);
    if r == '\\' then Go(c, StringEscape, n)
    else if IsNL(r) || r == '\0' || r == ';' || IsWhitespace(r) then
      EmitPop(input, c, if IsBool(input[c.start..c.pos]) then Bool else StringItem, c.pos, c.pos)
    else if r == '\'' then EmitPop(input, c, StringItem, c.pos, n)
    else Go(c, String, n)
  }

  /** A block ends at a ')' that has a line to itself. At the real end of the input the
      second of the source's two backups moves nothing, and the ')' stays in the text. */
  function BlockStep(input: string, c: Conf): Move
    requires Bounds(input, c) && c.state.Block?
  {
    var n := After(input, c.pos);
    if At(input, c.pos) == ')' && input[c.pos - 1] == '\n' && (At(input, n) == '\n' || At(input, n) == '\0') then
      EmitPop(input, c, StringItem, if n < |input| then c.pos else n, n)
    else Go(c, Block, n)
  }

  function StringEscapeStep(input: string, c: Conf): Move
    requires Bounds(input, c)
  {
    var r, n := At(input, c.pos), After(input, c.pos);
    if r == 'x' then Go(c, StringBinary, n)
    else if r == 't' || r == 'n' || r == 'r' || r == '"' || r == '\\' then Go(c, String, n)
    else Fail(input, c, n)
  }

  function StringBinaryStep(input: string, c: Conf): Move
    requires Bounds(input, c)
  {
    var n := After(input, c.pos);
    if !IsHexadecimal(At(input, c.pos)) then Fail(input, c, n)
    else if !IsHexadecimal(At(input, n)) then Fail(input, c, After(input, n))
    else Go(c, String, After(input, n))
  }

  /** One required digit. */
  function DigitStep(input: string, c: Conf, next: State): Move
    requires Bounds(input, c)
  {
    var n := After(input, c.pos);
    if IsDigit(At(input, c.pos)) then Go(c, next, n) else Fail(input, c, n)
  }

  function NumberOrDateStep(input: string, c: Conf): Move
    requires Bounds(input, c)
  {
    var r, n := At(input, c.pos), After(input, c.pos);
    if r == '-' then if n - c.start != 5 then Fail(input, c, n) else Go(c, DateAfterYear, n)
    else if IsDigit(r) then Go(c, NumberOrDate, n)
    else if r == '.' then Go(c, FloatStart, n)
    else EmitPop(input, c, Integer, c.pos, c.pos)
  }

  function NumberStep(input: string, c: Conf): Move
    requires Bounds(input, c)
  {
    var r, n := At(input, c.pos), After(input, c.pos);
    if IsDigit(r) then Go(c, Number, n)
    else if r == '.' then Go(c, FloatStart, n)
    else EmitPop(input, c, Integer, c.pos, c.pos)
  }

  function FloatStep(input: string, c: Conf): Move
    requires Bounds(input, c)
  {
    if IsDigit(At(input, c.pos)) then Go(c, Float, After(input, c.pos))
    else EmitPop(input, c, FloatItem, c.pos, c.pos)
  }

  /** What must follow the year and its dash; a 0 stands for any digit. */
  const ZULU_LENGTH := 15

  function Zulu(k: nat): char
    requires k < ZULU_LENGTH
  {
    "00-00T00:00:00Z"[k]
  }

  /** Whether r fits the form at place f. */
  predicate Fits(f: char, r: char) {
    if f == '0' then IsDigit(r) else f == r
  }

  /** How many characters of the form, from place k on, the input at p matches. */
  function Matched(input: string, p: nat, k: nat): (m: nat)
    requires k <= ZULU_LENGTH
    ensures m <= ZULU_LENGTH - k
    ensures m > 0 ==> p + m <= |input|
    decreases |input|, ZULU_LENGTH - k
  {
    if k < ZULU_LENGTH && Fits(Zulu(k), At(input, p)) then
      assert p < |input| by { assert Zulu(k) != '\0'; }
      1 + Matched(input, p + 1, k + 1)
    else 0
  }

  function DateStep(input: string, c: Conf): Move
    requires Bounds(input, c)
  {
    var m := Matched(input, c.pos, 0);
    if m == ZULU_LENGTH then EmitPop(input, c, Datetime, c.pos + m, c.pos + m)
    else Fail(input, c, After(input, c.pos + m))
  }

  function CommentStep(input: string, c: Conf): Move
    requires Bounds(input, c)
  {
    var r := At(input, c.pos);
    if IsNL(r) || r == '\0' then EmitPop(input, c, Text, c.pos, c.pos)
    else Go(c, Comment, After(input, c.pos))
  }

  function Step(input: string, c: Conf): Move
    requires Bounds(input, c)
  {
    match c.state
    case Top => TopStep(input, c)
    case TopValueEnd => TopValueEndStep(input, c)
    case KeyStart => KeyStartStep(input, c)
    case DubQuotedKey => QuotedKeyStep(input, c, '"', KeyEnd)
    case QuotedKey => QuotedKeyStep(input, c, '\'', KeyEnd)
    case Key => BareKeyStep(input, c, KeyEnd)
    case KeyEnd => KeyEndStep(input, c, Value)
    case Value => ValueStep(input, c)
    case ArrayValue => ArrayValueStep(input, c)
    case ArrayValueEnd => ArrayValueEndStep(input, c)
    case ArrayEnd => EmitPop(input, c.(start := c.pos), ArrayClose, c.pos, c.pos)
    case MapKeyStart => MapKeyStartStep(input, c)
    case MapQuotedKey => QuotedKeyStep(input, c, '\'', MapKeyEnd)
    case MapDubQuotedKey => QuotedKeyStep(input, c, '"', MapKeyEnd)
    case MapKey => BareKeyStep(input, c, MapKeyEnd)
    case MapKeyEnd => KeyEndStep(input, c, MapValue)
    case MapValue => MapValueStep(input, c)
    case MapValueEnd => MapValueEndStep(input, c)
    case MapEnd => EmitPop(input, c.(start := c.pos), MapClose, c.pos, c.pos)
    case QuotedString => QuotedStringStep(input, c, '\'')
    case DubQuotedString => QuotedStringStep(input, c, '"')
    case String => StringStep(input, c)
    case Block => BlockStep(input, c)
    case StringEscape => StringEscapeStep(input, c)
    case StringBinary => StringBinaryStep(input, c)
    case NumberOrDateStart => DigitStep(input, c, NumberOrDate)
    case NumberOrDate => NumberOrDateStep(input, c)
    case DateAfterYear => DateStep(input, c)
    case NumberStart => DigitStep(input, c, Number)
    case Number => NumberStep(input, c)
    case FloatStart => DigitStep(input, c, Float)
    case Float => FloatStep(input, c)
    case CommentStart => Bracket(input, c, CommentOpen, Comment, c.pos)
    case Comment => CommentStep(input, c)
    case Skip(next) => Move(Conf(next, c.pos, c.pos, c.stack), [])
    case Halted => Move(c, [])
  }

  const START := Conf(Top, 0, 0, [])
}
