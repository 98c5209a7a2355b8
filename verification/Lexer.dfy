/** The lexer as the program keeps it: an object whose state functions move it through the
    input one character at a time. Every call is proved to be one step of the machine. */
module Lexer {
  import opened LexSpec
  import opened LexRun

  /** What a request for an item comes to; Spins is the loop that never ends. */
  datatype Reply = Delivered(item: Item) | Spins

  class Lexer {
    const input: string
    var start: nat
    var pos: nat
    var width: nat
    var line: nat
    var state: State
    var items: seq<Item>
    var stack: seq<State>

    function Here(): Conf reads this { Conf(state, start, pos, stack) }

    /** The line counter is that of the position. */
    ghost predicate OnLine() reads this {
      pos <= |input| && line == Line(input, pos)
    }

    ghost predicate Ready() reads this {
      OnLine() && Bounds(input, Here())
    }

    /** After a state function that goes on to `next`: the move has been made, its items
        delivered, and the line counter is still that of the position. */
    ghost predicate Made(m: Move, before: seq<Item>, next: State) reads this {
      OnLine() && Conf(next, start, pos, stack) == m.to && items == before + m.out
    }

    constructor (text: string)
      ensures input == text && Here() == START && items == [] && Ready()
    {
      input, start, pos, width, line := text, 0, 0, 0, 1;
      state, items, stack := Top, [], [];
    }

    // Moving in the input

    method Next() returns (r: char)
      requires OnLine()
      modifies this`pos, this`width, this`line
      ensures OnLine() && r == At(input, old(pos)) && pos == After(input, old(pos)) && width == pos - old(pos)
    {
      if pos >= |input| {
        width := 0;
        return '\0';
      }
      if input[pos] == '\n' { line := line + 1; }
      r, width := input[pos], 1;
      pos := pos + width;
    }

    /** Steps back over what the last Next read; a second time over one character more,
        or over nothing when the last Next met the end of the input. */
    method Backup()
      requires OnLine() && width <= 1 && width <= pos && (width == 0 ==> pos == |input|)
      modifies this`pos, this`line
      ensures OnLine() && pos == old(pos) - width
    {
      pos := pos - width;
      if pos < |input| && input[pos] == '\n' { line := line - 1; }
    }

    method Peek() returns (r: char)
      requires OnLine()
      modifies this`pos, this`width, this`line
      ensures OnLine() && r == At(input, old(pos)) && pos == old(pos)
    {
      r := Next();
      Backup();
    }

    method Ignore()
      modifies this`start
      ensures start == pos
    {
      start := pos;
    }

    method Deliver(kind: Kind)
      requires start <= pos <= |input|
      modifies this`start, this`items
      ensures start == pos && items == old(items) + [Item(kind, input[old(start)..pos], line)]
    {
      items := items + [Item(kind, input[start..pos], line)];
      start := pos;
    }

    method Errorf() returns (next: State)
      modifies this`items
      ensures next == Halted && items == old(items) + [Item(Error, "", line)]
    {
      items := items + [Item(Error, "", line)];
      next := Halted;
    }

    method PushState(s: State)
      modifies this`stack
      ensures stack == old(stack) + [s]
    {
      stack := stack + [s];
    }

    method Pop() returns (next: State)
      modifies this`stack, this`items
      ensures old(stack) == [] ==> next == Halted && stack == [] && items == old(items) + [Item(Error, "", line)]
      ensures old(stack) != [] ==>
                next == old(stack)[|old(stack)| - 1] && stack == old(stack)[..|old(stack)| - 1] && items == old(items)
    {
      if stack == [] {
        next := Errorf();
      } else {
        next := stack[|stack| - 1];
        stack := stack[..|stack| - 1];
      }
    }

    /** Delivers the pending input as an item and returns to the last continuation. */
    method DeliverAndPop(kind: Kind) returns (next: State)
      requires OnLine() && start <= pos
      modifies this`start, this`items, this`stack
      ensures Made(EmitPop(input, old(Here()), kind, pos, pos), old(items), next)
    {
      Deliver(kind);
      next := Pop();
    }

    // The state functions

    method LexTop() returns (next: State)
      requires Ready() && state.Top?
      modifies this
      ensures Made(Step(input, old(Here())), old(items), next)
    {
      var r := Next();
      if IsWhitespace(r) || IsNL(r) { return Skip(Top); }
      if r == '#' {
        PushState(Top);
        return CommentStart;
      } else if r == '/' {
        var rn := Next();
        if rn == '/' {
          PushState(Top);
          return CommentStart;
        }
        Backup();
      }
      if r == '/' || r == '\0' {
        if pos > start {
          next := Errorf();
          return;
        }
        Deliver(EOF);
        return Halted;
      }
      Backup();
      PushState(TopValueEnd);
      next := KeyStart;
    }

    method LexTopValueEnd() returns (next: State)
      requires Ready() && state.TopValueEnd?
      modifies this
      ensures Made(Step(input, old(Here())), old(items), next)
    {
      var r := Next();
      if r == '#' {
        PushState(Top);
        return CommentStart;
      } else if r == '/' {
        var rn := Next();
        if rn == '/' {
          PushState(Top);
          return CommentStart;
        }
        Backup();
      }
      if r == '/' || IsWhitespace(r) { return TopValueEnd; }
      if IsNL(r) || r == '\0' || r == ';' {
        Ignore();
        return Top;
      }
      next := Errorf();
    }

    method LexKeyStart() returns (next: State)
      requires Ready() && state.KeyStart?
      modifies this
      ensures Made(Step(input, old(Here())), old(items), next)
    {
      var r := Peek();
      if IsSeparator(r) {
        next := Errorf();
        return;
      }
      if IsWhitespace(r) || IsNL(r) {
        r := Next();
        return Skip(KeyStart);
      }
      if r == '"' {
        r := Next();
        return Skip(DubQuotedKey);
      }
      if r == '\'' {
        r := Next();
        return Skip(QuotedKey);
      }
      Ignore();
      r := Next();
      next := Key;
    }

    method LexDubQuotedKey() returns (next: State)
      requires Ready() && state.DubQuotedKey?
      modifies this
      ensures Made(Step(input, old(Here())), old(items), next)
    {
      var r := Peek();
      if r == '"' {
        Deliver(KeyItem);
        r := Next();
        return Skip(KeyEnd);
      }
      r := Next();
      next := DubQuotedKey;
    }

    method LexQuotedKey() returns (next: State)
      requires Ready() && state.QuotedKey?
      modifies this
      ensures Made(Step(input, old(Here())), old(items), next)
    {
      var r := Peek();
      if r == '\'' {
        Deliver(KeyItem);
        r := Next();
        return Skip(KeyEnd);
      }
      r := Next();
      next := QuotedKey;
    }

    method LexKey() returns (next: State)
      requires Ready() && state.Key?
      modifies this
      ensures Made(Step(input, old(Here())), old(items), next)
    {
      var r := Peek();
      if IsWhitespace(r) || IsNL(r) || IsSeparator(r) {
        Deliver(KeyItem);
        return KeyEnd;
      }
      r := Next();
      next := Key;
    }

    method LexKeyEnd() returns (next: State)
      requires Ready() && state.KeyEnd?
      modifies this
      ensures Made(Step(input, old(Here())), old(items), next)
    {
      var r := Next();
      if IsWhitespace(r) || IsNL(r) { return Skip(KeyEnd); }
      if IsSeparator(r) { return Skip(Value); }
      Backup();
      next := Value;
    }

    method LexValue() returns (next: State)
      requires Ready() && state.Value?
      modifies this
      ensures Made(Step(input, old(Here())), old(items), next)
    {
      var r := Next();
      if IsWhitespace(r) { return Skip(Value); }
      if r == '[' {
        Ignore();
        Deliver(ArrayOpen);
        return ArrayValue;
      }
      if r == '{' {
        Ignore();
        Deliver(MapOpen);
        return MapKeyStart;
      }
      if r == '\'' {
        Ignore();
        return QuotedString;
      }
      if r == '"' {
        Ignore();
        return DubQuotedString;
      }
      if r == '-' { return NumberStart; }
      if r == '(' {
        Ignore();
        return Block;
      }
      if IsDigit(r) {
        Backup();
        return NumberOrDateStart;
      }
      if r == '.' || IsNL(r) {
        next := Errorf();
        return;
      }
      Backup();
      next := String;
    }

    method LexArrayValue() returns (next: State)
      requires Ready() && state.ArrayValue?
      modifies this
      ensures Made(Step(input, old(Here())), old(items), next)
    {
      var r := Next();
      if IsWhitespace(r) || IsNL(r) { return Skip(ArrayValue); }
      if r == '#' {
        PushState(ArrayValue);
        return CommentStart;
      } else if r == '/' {
        var rn := Next();
        if rn == '/' {
          PushState(ArrayValue);
          return CommentStart;
        }
        Backup();
      }
      if r == '/' || r == ',' {
        next := Errorf();
        return;
      }
      if r == ']' { return ArrayEnd; }
      Backup();
      PushState(ArrayValueEnd);
      next := Value;
    }

    method LexArrayValueEnd() returns (next: State)
      requires Ready() && state.ArrayValueEnd?
      modifies this
      ensures Made(Step(input, old(Here())), old(items), next)
    {
      var r := Next();
      if IsWhitespace(r) { return Skip(ArrayValueEnd); }
      if r == '#' {
        PushState(ArrayValueEnd);
        return CommentStart;
      } else if r == '/' {
        var rn := Next();
        if rn == '/' {
          PushState(ArrayValueEnd);
          return CommentStart;
        }
        Backup();
      }
      if r == '/' || r == ',' || IsNL(r) { return Skip(ArrayValue); }
      if r == ']' { return ArrayEnd; }
      next := Errorf();
    }

    method LexArrayEnd() returns (next: State)
      requires Ready() && state.ArrayEnd?
      modifies this
      ensures Made(Step(input, old(Here())), old(items), next)
    {
      Ignore();
      next := DeliverAndPop(ArrayClose);
    }

    method LexMapKeyStart() returns (next: State)
      requires Ready() && state.MapKeyStart?
      modifies this
      ensures Made(Step(input, old(Here())), old(items), next)
    {
      var r := Peek();
      if IsSeparator(r) {
        next := Errorf();
        return;
      }
      if IsWhitespace(r) || IsNL(r) {
        r := Next();
        return Skip(MapKeyStart);
      }
      if r == '}' {
        r := Next();
        return Skip(MapEnd);
      }
      if r == '#' {
        r := Next();
        PushState(MapKeyStart);
        return CommentStart;
      }
      if r == '/' {
        r := Next();
        var rn := Next();
        if rn == '/' {
          PushState(MapKeyStart);
          return CommentStart;
        }
        Backup();
      } else if r == '\'' {
        r := Next();
        return Skip(MapQuotedKey);
      } else if r == '"' {
        r := Next();
        return Skip(MapDubQuotedKey);
      }
      Ignore();
      r := Next();
      next := MapKey;
    }

    method LexMapQuotedKey() returns (next: State)
      requires Ready() && state.MapQuotedKey?
      modifies this
      ensures Made(Step(input, old(Here())), old(items), next)
    {
      var r := Peek();
      if r == '\'' {
        Deliver(KeyItem);
        r := Next();
        return Skip(MapKeyEnd);
      }
      r := Next();
      next := MapQuotedKey;
    }

    method LexMapDubQuotedKey() returns (next: State)
      requires Ready() && state.MapDubQuotedKey?
      modifies this
      ensures Made(Step(input, old(Here())), old(items), next)
    {
      var r := Peek();
      if r == '"' {
        Deliver(KeyItem);
        r := Next();
        return Skip(MapKeyEnd);
      }
      r := Next();
      next := MapDubQuotedKey;
    }

    method LexMapKey() returns (next: State)
      requires Ready() && state.MapKey?
      modifies this
      ensures Made(Step(input, old(Here())), old(items), next)
    {
      var r := Peek();
      if IsWhitespace(r) || IsNL(r) || IsSeparator(r) {
        Deliver(KeyItem);
        return MapKeyEnd;
      }
      r := Next();
      next := MapKey;
    }

    method LexMapKeyEnd() returns (next: State)
      requires Ready() && state.MapKeyEnd?
      modifies this
      ensures Made(Step(input, old(Here())), old(items), next)
    {
      var r := Next();
      if IsWhitespace(r) || IsNL(r) { return Skip(MapKeyEnd); }
      if IsSeparator(r) { return Skip(MapValue); }
      Backup();
      next := MapValue;
    }

    method LexMapValue() returns (next: State)
      requires Ready() && state.MapValue?
      modifies this
      ensures Made(Step(input, old(Here())), old(items), next)
    {
      var r := Next();
      if IsWhitespace(r) || IsNL(r) { return Skip(MapValue); }
      if r == ',' {
        next := Errorf();
        return;
      }
      if r == '}' { return Skip(MapEnd); }
      Backup();
      PushState(MapValueEnd);
      next := Value;
    }

    method LexMapValueEnd() returns (next: State)
      requires Ready() && state.MapValueEnd?
      modifies this
      ensures Made(Step(input, old(Here())), old(items), next)
    {
      var r := Next();
      if IsWhitespace(r) { return Skip(MapValueEnd); }
      if r == '#' {
        PushState(MapValueEnd);
        return CommentStart;
      } else if r == '/' {
        var rn := Next();
        if rn == '/' {
          PushState(MapValueEnd);
          return CommentStart;
        }
        Backup();
      }
      if r == '/' || r == ';' || r == ',' || IsNL(r) { return Skip(MapKeyStart); }
      if r == '}' { return Skip(MapEnd); }
      next := Errorf();
    }

    method LexMapEnd() returns (next: State)
      requires Ready() && state.MapEnd?
      modifies this
      ensures Made(Step(input, old(Here())), old(items), next)
    {
      Ignore();
      next := DeliverAndPop(MapClose);
    }

    /** Delivers what stands before the quote just read, and returns to the last continuation. */
    method QuoteEnds() returns (next: State)
      requires OnLine() && width == 1 && start < pos
      modifies this
      ensures Made(EmitPop(input, old(Here()), StringItem, old(pos) - 1, old(pos)), old(items), next)
    {
      Backup();
      Deliver(StringItem);
      var r := Next();
      Ignore();
      next := Pop();
    }

    method LexQuotedString() returns (next: State)
      requires Ready() && state.QuotedString?
      modifies this
      ensures Made(Step(input, old(Here())), old(items), next)
    {
      var r := Next();
      if r == '\'' {
        next := QuoteEnds();
        return;
      }
      next := QuotedString;
    }

    method LexDubQuotedString() returns (next: State)
      requires Ready() && state.DubQuotedString?
      modifies this
      ensures Made(Step(input, old(Here())), old(items), next)
    {
      var r := Next();
      if r == '"' {
        next := QuoteEnds();
        return;
      }
      next := DubQuotedString;
    }

    method LexString() returns (next: State)
      requires Ready() && state.String?
      modifies this
      ensures Made(Step(input, old(Here())), old(items), next)
    {
      var r := Next();
      if r == '\\' { return StringEscape; }
      if IsNL(r) || r == '\0' || r == ';' || IsWhitespace(r) {
        Backup();
        next := DeliverAndPop(if IsBool(input[start..pos]) then Bool else StringItem);
        return;
      }
      if r == '\'' {
        next := QuoteEnds();
        return;
      }
      next := String;
    }

    /** Delivers a block, the ')' and what follows it just read. At the end of the input the
        steps back move nothing, and the ')' is delivered with the block. */
    method BlockEnds() returns (next: State)
      requires OnLine() && width <= 1 && start + width < pos && (width == 0 ==> pos == |input|)
      modifies this
      ensures var p := old(pos);
              Made(if old(width) == 0 then EmitPop(input, old(Here()), StringItem, p, p)
                   else EmitPop(input, old(Here()), StringItem, p - 2, p - 1), old(items), next)
    {
      Backup();
      Backup();
      Deliver(StringItem);
      var r := Next();
      Ignore();
      next := Pop();
    }

    method LexBlock() returns (next: State)
      requires Ready() && state.Block?
      modifies this
      ensures Made(BlockStep(input, old(Here())), old(items), next)
    {
      var r := Next();
      if r == ')' {
        Backup();
        Backup();
        r := Next();
        if r != '\n' {
          r := Next();
          return Block;
        }
        r := Next();
        r := Next();
        if r == '\n' || r == '\0' {
          next := BlockEnds();
          return;
        }
        Backup();
      }
      next := Block;
    }

    method LexStringEscape() returns (next: State)
      requires Ready() && state.StringEscape?
      modifies this
      ensures Made(Step(input, old(Here())), old(items), next)
    {
      var r := Next();
      if r == 'x' { return StringBinary; }
      if r == 't' || r == 'n' || r == 'r' || r == '"' || r == '\\' { return String; }
      next := Errorf();
    }

    method LexStringBinary() returns (next: State)
      requires Ready() && state.StringBinary?
      modifies this
      ensures Made(Step(input, old(Here())), old(items), next)
    {
      var r := Next();
      if !IsHexadecimal(r) {
        next := Errorf();
        return;
      }
      r := Next();
      if !IsHexadecimal(r) {
        next := Errorf();
        return;
      }
      next := String;
    }

    method LexNumberOrDateStart() returns (next: State)
      requires Ready() && state.NumberOrDateStart?
      modifies this
      ensures Made(Step(input, old(Here())), old(items), next)
    {
      var r := Next();
      if !IsDigit(r) {
        next := Errorf();
        return;
      }
      next := NumberOrDate;
    }

    method LexNumberOrDate() returns (next: State)
      requires Ready() && state.NumberOrDate?
      modifies this
      ensures Made(Step(input, old(Here())), old(items), next)
    {
      var r := Next();
      if r == '-' {
        if pos - start != 5 {
          next := Errorf();
          return;
        }
        return DateAfterYear;
      }
      if IsDigit(r) { return NumberOrDate; }
      if r == '.' { return FloatStart; }
      Backup();
      next := DeliverAndPop(Integer);
    }

    /** Reads on along the form of a date from its place `k`, up to where it no longer fits. */
    method ReadDate(k0: nat) returns (ok: bool)
      requires OnLine() && k0 <= ZULU_LENGTH
      modifies this`pos, this`width, this`line
      ensures OnLine() && ok == (k0 + Matched(input, old(pos), k0) == ZULU_LENGTH)
      ensures var end := old(pos) + Matched(input, old(pos), k0); pos == if ok then end else After(input, end)
    {
      var k := k0;
      while k < ZULU_LENGTH
        invariant k0 <= k <= ZULU_LENGTH && OnLine() && pos == old(pos) + k - k0
        invariant k0 + Matched(input, old(pos), k0) == k + Matched(input, pos, k)
      {
        MatchedNext(input, pos, k);
        var f := Zulu(k);
        var r := Next();
        if !Fits(f, r) { return false; }
        k := k + 1;
      }
      ok := true;
    }

    method LexDateAfterYear() returns (next: State)
      requires Ready() && state.DateAfterYear?
      modifies this
      ensures Made(DateStep(input, old(Here())), old(items), next)
    {
      var ok := ReadDate(0);
      if !ok {
        next := Errorf();
        return;
      }
      next := DeliverAndPop(Datetime);
    }

    method LexNumberStart() returns (next: State)
      requires Ready() && state.NumberStart?
      modifies this
      ensures Made(Step(input, old(Here())), old(items), next)
    {
      var r := Next();
      if !IsDigit(r) {
        next := Errorf();
        return;
      }
      next := Number;
    }

    method LexNumber() returns (next: State)
      requires Ready() && state.Number?
      modifies this
      ensures Made(Step(input, old(Here())), old(items), next)
    {
      var r := Next();
      if IsDigit(r) { return Number; }
      if r == '.' { return FloatStart; }
      Backup();
      next := DeliverAndPop(Integer);
    }

    method LexFloatStart() returns (next: State)
      requires Ready() && state.FloatStart?
      modifies this
      ensures Made(Step(input, old(Here())), old(items), next)
    {
      var r := Next();
      if !IsDigit(r) {
        next := Errorf();
        return;
      }
      next := Float;
    }

    method LexFloat() returns (next: State)
      requires Ready() && state.Float?
      modifies this
      ensures Made(Step(input, old(Here())), old(items), next)
    {
      var r := Next();
      if IsDigit(r) { return Float; }
      Backup();
      next := DeliverAndPop(FloatItem);
    }

    method LexCommentStart() returns (next: State)
      requires Ready() && state.CommentStart?
      modifies this
      ensures Made(Step(input, old(Here())), old(items), next)
    {
      Ignore();
      Deliver(CommentOpen);
      next := Comment;
    }

    method LexComment() returns (next: State)
      requires Ready() && state.Comment?
      modifies this
      ensures Made(CommentStep(input, old(Here())), old(items), next)
    {
      var r := Peek();
      if IsNL(r) || r == '\0' {
        next := DeliverAndPop(Text);
        return;
      }
      r := Next();
      next := Comment;
    }

    /** The closure that lexSkip returns. */
    method LexSkip() returns (next: State)
      requires Ready() && state.Skip?
      modifies this
      ensures Made(Step(input, old(Here())), old(items), next)
    {
      Ignore();
      next := state.next;
    }

    method Call() returns (next: State)
      requires Ready() && !state.Halted?
      modifies this
      ensures Made(Step(input, old(Here())), old(items), next)
    {
      match state
      case Top => next := LexTop();
      case TopValueEnd => next := LexTopValueEnd();
      case KeyStart => next := LexKeyStart();
      case DubQuotedKey => next := LexDubQuotedKey();
      case QuotedKey => next := LexQuotedKey();
      case Key => next := LexKey();
      case KeyEnd => next := LexKeyEnd();
      case Value => next := LexValue();
      case ArrayValue => next := LexArrayValue();
      case ArrayValueEnd => next := LexArrayValueEnd();
      case ArrayEnd => next := LexArrayEnd();
      case MapKeyStart => next := LexMapKeyStart();
      case MapQuotedKey => next := LexMapQuotedKey();
      case MapDubQuotedKey => next := LexMapDubQuotedKey();
      case MapKey => next := LexMapKey();
      case MapKeyEnd => next := LexMapKeyEnd();
      case MapValue => next := LexMapValue();
      case MapValueEnd => next := LexMapValueEnd();
      case MapEnd => next := LexMapEnd();
      case QuotedString => next := LexQuotedString();
      case DubQuotedString => next := LexDubQuotedString();
      case String => next := LexString();
      case Block => next := LexBlock();
      case StringEscape => next := LexStringEscape();
      case StringBinary => next := LexStringBinary();
      case NumberOrDateStart => next := LexNumberOrDateStart();
      case NumberOrDate => next := LexNumberOrDate();
      case DateAfterYear => next := LexDateAfterYear();
      case NumberStart => next := LexNumberStart();
      case Number => next := LexNumber();
      case FloatStart => next := LexFloatStart();
      case Float => next := LexFloat();
      case CommentStart => next := LexCommentStart();
      case Comment => next := LexComment();
      case Skip(_) => next := LexSkip();
    }

    // Items

    /** The lexer has delivered the first of what was left to deliver, if anything. */
    ghost predicate Before(ts: seq<Token>) reads this {
      && OnLine() && Inv(input, Here()) && |items| <= 1
      && ts == (if items == [] then [] else [TokenOf(items[0])]) + Tokens(input, Here())
      && (state.Halted? ==> items != [])
      && (items != [] ==> (state.Halted? <==> items[0].kind.Error? || items[0].kind.EOF?))
    }

    /** One call of the current state function. */
    method Advance()
      requires OnLine() && Inv(input, Here()) && !Settled(input, Here()) && items == []
      modifies this
      ensures Before(Tokens(input, old(Here())))
      ensures items == [] ==> Measure(input, Here()) < Measure(input, old(Here()))
    {
      ghost var before := Here();
      StepDelivers(input, before);
      state := Call();
    }

    /** The next item of the run, with its line; or no item, when the state functions would be
        called for ever at the end of the input. */
    method NextItem() returns (r: Reply)
      requires OnLine() && Inv(input, Here()) && !state.Halted? && items == []
      modifies this
      ensures OnLine() && Inv(input, Here()) && items == []
      ensures r.Delivered? ==> Tokens(input, old(Here())) == [TokenOf(r.item)] + Tokens(input, Here())
      ensures r.Delivered? ==> (state.Halted? <==> r.item.kind.Error? || r.item.kind.EOF?)
      ensures r.Spins? ==> Tokens(input, old(Here())) == [] && Stuck(input, Here())
    {
      ghost var ts := Tokens(input, Here());
      assert ts == [] + ts;
      while items == []
        invariant Before(ts)
        decreases if items == [] then 1 + Measure(input, Here()) else 0
      {
        assert ts == Tokens(input, Here());
        if Seeks(state) && pos >= |input| { return Spins; }
        Advance();
      }
      r := Delivered(items[0]);
      items := items[1..];
    }
  }

  lemma MatchedNext(input: string, p: nat, k: nat)
    requires k < ZULU_LENGTH && p <= |input|
    ensures Matched(input, p, k) ==
            if Fits(Zulu(k), At(input, p)) then 1 + Matched(input, After(input, p), k + 1) else 0
    ensures Matched(input, p, ZULU_LENGTH) == 0
  {
    assert Zulu(k) != '\0';
  }

  /** One step, as far as the requests for items are concerned. */
  lemma StepDelivers(input: string, c: Conf)
    requires Inv(input, c) && !Settled(input, c)
    ensures var m := Step(input, c);
            && Inv(input, m.to) && |m.out| <= 1 && Tokens(input, c) == Out(m) + Tokens(input, m.to)
            && (m.to.state.Halted? ==> m.out != []) && (m.out == [] ==> Measure(input, m.to) < Measure(input, c))
            && (m.out != [] ==> (m.to.state.Halted? <==> m.out[0].kind.Error? || m.out[0].kind.EOF?))
  {
    StepInv(input, c);
    StepDecreases(input, c);
    TokensStep(input, c);
    HaltsWithAWord(input, c);
  }
}
