/** The configuration parser: a stack machine over the lexer's tokens, and the trees it
    stands for. */
module TreeBuilder {
  import opened LexSpec
  import opened LexRun

  datatype Value =
    | Str(s: string) | Int(i: int) | Boolean(b: bool)
    | Other(kind: Kind, text: string)   // a float or a date, by its text
    | Arr(es: seq<Value>)
    | Table(m: map<string, Value>)

  /** The contexts opened and not yet closed, outermost first, and the keys still to be bound. */
  datatype Builder = Builder(ctxs: seq<Value>, keys: seq<string>)

  datatype Outcome = Ok(b: Builder) | Refused | Bug

  datatype Scalar = Good(v: Value) | Bad

  const NEW := Builder([Table(map[])], [])

  // Numbers

  const INT64_LIMIT := 0x8000_0000_0000_0000

  /** The value of a string of decimal digits. */
  function Digits(s: string): nat
    requires forall i :: 0 <= i < |s| ==> IsDigit(s[i])
  {
    if s == [] then 0 else
      var last := s[|s| - 1];
      assert IsDigit(last);
      10 * Digits(s[..|s| - 1]) + (last as int - '0' as int)
  }

  /** strconv.ParseInt(s, 10, 64). */
  function ParseInt(s: string): Scalar {
    var negative := s != [] && s[0] == '-';
    var ds := if s != [] && (s[0] == '-' || s[0] == '+') then s[1..] else s;
    if ds == [] || exists i :: 0 <= i < |ds| && !IsDigit(ds[i]) then Bad else
    var n := Digits(ds);
    if negative then if n <= INT64_LIMIT then Scalar.Good(Int(-(n as int))) else Bad
    else if n < INT64_LIMIT then Scalar.Good(Int(n)) else Bad
  }

  predicate AllDigits(s: string) { forall i :: 0 <= i < |s| ==> IsDigit(s[i]) }

  const TWO_320 := 0x100000000000000000000000000000000000000000000000000000000000000000000000000000000

  /** 2^1024 - 2^970: from here on a decimal rounds to no finite float64. */
  const FLOAT_LIMIT := 0x3F_FFFF_FFFF_FFFF * 0x400 * TWO_320 * TWO_320 * TWO_320

  /** What stands before the first point. */
  function BeforePoint(s: string): (r: string)
    ensures r <= s && '.' !in r
  {
    if s == [] || s[0] == '.' then [] else [s[0]] + BeforePoint(s[1..])
  }

  /** strconv.ParseFloat(s, 64) of digits, a point and digits, with or without a minus sign:
      out of range when the integer part is, for the limit is an integer. */
  predicate ParsesAsFloat(s: string) {
    var ds := if s != [] && s[0] == '-' then s[1..] else s;
    var whole := BeforePoint(ds);
    whole != [] && AllDigits(whole) && Digits(whole) < FLOAT_LIMIT
  }

  function DaysIn(month: nat, year: nat): nat {
    if month == 2 then
      if year % 4 == 0 && (year % 100 != 0 || year % 400 == 0) then 29 else 28
    else if month == 4 || month == 6 || month == 9 || month == 11 then 30
    else 31
  }

  /** The number in these places, if they hold digits. */
  function Field(s: string, from: nat, to: nat): (n: int)
    requires from <= to <= |s|
    ensures n >= -1
  {
    if AllDigits(s[from..to]) then Digits(s[from..to]) else -1
  }

  /** time.Parse of a date in full Zulu form: every field in its range, the day in its month. */
  predicate ParsesAsDate(s: string) {
    |s| == 20 && Field(s, 0, 4) >= 0 &&
    var month := Field(s, 5, 7);
    && 1 <= month <= 12 && 1 <= Field(s, 8, 10) <= DaysIn(month, Field(s, 0, 4))
    && 0 <= Field(s, 11, 13) < 24 && 0 <= Field(s, 14, 16) < 60 && 0 <= Field(s, 17, 19) < 60
  }

  predicate IsScalar(k: Kind) {
    k.StringItem? || k.Bool? || k.Integer? || k.FloatItem? || k.Datetime?
  }

  function ScalarValue(t: Token): Scalar
    requires IsScalar(t.kind)
  {
    match t.kind
    case StringItem => Scalar.Good(Str(t.val))
    case Integer => ParseInt(t.val)
    case Bool => if t.val == "true" then Scalar.Good(Boolean(true))
                 else if t.val == "false" then Scalar.Good(Boolean(false)) else Bad
    case FloatItem => if ParsesAsFloat(t.val) then Scalar.Good(Other(t.kind, t.val)) else Bad
    case _ => if ParsesAsDate(t.val) then Scalar.Good(Other(t.kind, t.val)) else Bad
  }

  // The machine

  function Open(b: Builder, v: Value): Builder { b.(ctxs := b.ctxs + [v]) }

  /** setValue: onto the open array, or under the last key in the open map. */
  function SetValue(b: Builder, v: Value): Outcome {
    if b.ctxs == [] then Bug else
    var n := |b.ctxs| - 1;
    match b.ctxs[n]
    case Arr(es) => Ok(b.(ctxs := b.ctxs[n := Arr(es + [v])]))
    case Table(m) =>
      if b.keys == [] then Bug else
      var k := |b.keys| - 1;
      Ok(Builder(b.ctxs[n := Table(m[b.keys[k] := v])], b.keys[..k]))
    case _ => Ok(b)
  }

  /** Closing the innermost context makes it a value of the next; closing the root panics. */
  function Close(b: Builder): Outcome {
    if |b.ctxs| < 2 then Bug else
    var n := |b.ctxs| - 1;
    SetValue(b.(ctxs := b.ctxs[..n]), b.ctxs[n])
  }

  function ProcessItem(b: Builder, t: Token): Outcome {
    match t.kind
    case Error => Refused
    case KeyItem => Ok(b.(keys := b.keys + [t.val]))
    case MapOpen => Ok(Open(b, Table(map[])))
    case ArrayOpen => Ok(Open(b, Arr([])))
    case MapClose => Close(b)
    case ArrayClose => Close(b)
    case EOF => Ok(b)
    case Text => Ok(b)
    case CommentOpen => Ok(b)
    case _ => match ScalarValue(t) case Good(v) => SetValue(b, v) case Bad => Refused
  }

  datatype Parsed = Tree(b: Builder) | Failed | Crashed | Endless

  /** The loop of parse. */
  function Build(ts: seq<Token>, b: Builder): Parsed
    decreases |ts|
  {
    if ts == [] then Endless
    else if ts[0].kind.EOF? then Tree(b)
    else match ProcessItem(b, ts[0])
      case Ok(b') => Build(ts[1..], b')
      case Refused => Failed
      case Bug => Crashed
  }

  function Parse(input: string): Parsed {
    Build(Tokens(input, START), NEW)
  }

  lemma BuildOne(t: Token, rest: seq<Token>, b: Builder)
    requires !t.kind.EOF?
    ensures Build([t] + rest, b) == match ProcessItem(b, t)
                                    case Ok(b') => Build(rest, b')
                                    case Refused => Failed
                                    case Bug => Crashed
  {
    assert ([t] + rest)[1..] == rest;
  }

  // What a well-bracketed token stream denotes

  datatype Node = Leaf(t: Token) | List(es: seq<Node>) | Object(entries: seq<Entry>)

  datatype Entry = Entry(key: string, node: Node)

  predicate IsNode(n: Node) {
    match n
    case Leaf(t) => IsScalar(t.kind)
    case List(es) => forall i :: 0 <= i < |es| ==> IsNode(es[i])
    case Object(entries) => forall i :: 0 <= i < |entries| ==> IsNode(entries[i].node)
  }

  function Flatten(n: Node): seq<Token>
    decreases n, 0
  {
    match n
    case Leaf(t) => [t]
    case List(es) => [Token(ArrayOpen, "")] + FlattenList(es) + [Token(ArrayClose, "")]
    case Object(entries) => [Token(MapOpen, "")] + FlattenEntries(entries) + [Token(MapClose, "")]
  }

  function FlattenList(es: seq<Node>): seq<Token>
    decreases es, 1
  {
    if es == [] then [] else Flatten(es[0]) + FlattenList(es[1..])
  }

  function FlattenEntries(entries: seq<Entry>): seq<Token>
    decreases entries, 1
  {
    if entries == [] then []
    else [Token(KeyItem, entries[0].key)] + Flatten(entries[0].node) + FlattenEntries(entries[1..])
  }

  /** The value a node stands for; Bad when some scalar in it cannot be converted. */
  function Denote(n: Node): Scalar
    requires IsNode(n)
    decreases n, 0
  {
    match n
    case Leaf(t) => ScalarValue(t)
    case List(es) => DenoteList(es, [])
    case Object(entries) => DenoteEntries(entries, map[])
  }

  function DenoteList(es: seq<Node>, before: seq<Value>): Scalar
    requires forall i :: 0 <= i < |es| ==> IsNode(es[i])
    decreases es, 1
  {
    if es == [] then Scalar.Good(Arr(before))
    else match Denote(es[0])
      case Good(v) => DenoteList(es[1..], before + [v])
      case Bad => Bad
  }

  /** Entries in order: the last binding of a repeated key wins. */
  function DenoteEntries(entries: seq<Entry>, before: map<string, Value>): Scalar
    requires forall i :: 0 <= i < |entries| ==> IsNode(entries[i].node)
    decreases entries, 1
  {
    if entries == [] then Scalar.Good(Table(before))
    else match Denote(entries[0].node)
      case Good(v) => DenoteEntries(entries[1..], before[entries[0].key := v])
      case Bad => Bad
  }

  /** A value can be set: the open context is an array, or a map with a key waiting. */
  predicate Ready(b: Builder) {
    b.ctxs != [] &&
    var top := b.ctxs[|b.ctxs| - 1];
    top.Arr? || (top.Table? && b.keys != [])
  }

  /** What the machine makes of a value's tokens: the value, set. */
  function Continue(v: Scalar, rest: seq<Token>, b: Builder): Parsed
    requires Ready(b)
  {
    match v case Good(v) => Build(rest, SetValue(b, v).b) case Bad => Failed
  }

  /** The contexts and keys below the node are untouched while its tokens are processed:
      the machine ends up as if the node's value had been set at once. */
  lemma {:induction false} BuildNode(n: Node, rest: seq<Token>, b: Builder)
    requires IsNode(n) && Ready(b)
    ensures Build(Flatten(n) + rest, b) == Continue(Denote(n), rest, b)
    decreases n, 0
  {
    match n
    case Leaf(t) => BuildOne(t, rest, b);
    case List(es) =>
      var close := Token(ArrayClose, "");
      assert Flatten(n) + rest == [Token(ArrayOpen, "")] + (FlattenList(es) + ([close] + rest));
      BuildOne(Token(ArrayOpen, ""), FlattenList(es) + ([close] + rest), b);
      BuildList(es, [], [close] + rest, b);
      if DenoteList(es, []).Good? { BuildClose(close, DenoteList(es, []).v, rest, b); }
    case Object(entries) =>
      var close := Token(MapClose, "");
      assert Flatten(n) + rest == [Token(MapOpen, "")] + (FlattenEntries(entries) + ([close] + rest));
      BuildOne(Token(MapOpen, ""), FlattenEntries(entries) + ([close] + rest), b);
      BuildEntries(entries, map[], [close] + rest, b);
      if DenoteEntries(entries, map[]).Good? { BuildClose(close, DenoteEntries(entries, map[]).v, rest, b); }
  }

  lemma BuildClose(close: Token, v: Value, rest: seq<Token>, b: Builder)
    requires (close.kind.MapClose? || close.kind.ArrayClose?) && Ready(b)
    ensures Build([close] + rest, Open(b, v)) == Build(rest, SetValue(b, v).b)
  {
    BuildOne(close, rest, Open(b, v));
    assert Open(b, v).ctxs[..|b.ctxs|] == b.ctxs;
  }

  lemma {:induction false} BuildList(es: seq<Node>, before: seq<Value>, rest: seq<Token>, b: Builder)
    requires forall i :: 0 <= i < |es| ==> IsNode(es[i])
    ensures Build(FlattenList(es) + rest, Open(b, Arr(before))) ==
            match DenoteList(es, before) case Good(v) => Build(rest, Open(b, v)) case Bad => Failed
    decreases es, 1
  {
    if es == [] {
      assert FlattenList(es) + rest == rest;
    } else {
      var more := FlattenList(es[1..]) + rest;
      assert FlattenList(es) + rest == Flatten(es[0]) + more;
      BuildNode(es[0], more, Open(b, Arr(before)));
      if Denote(es[0]).Good? {
        var v := Denote(es[0]).v;
        assert SetValue(Open(b, Arr(before)), v).b == Open(b, Arr(before + [v]));
        BuildList(es[1..], before + [v], rest, b);
      }
    }
  }

  lemma {:induction false} BuildEntries(entries: seq<Entry>, before: map<string, Value>, rest: seq<Token>, b: Builder)
    requires forall i :: 0 <= i < |entries| ==> IsNode(entries[i].node)
    ensures Build(FlattenEntries(entries) + rest, Open(b, Table(before))) ==
            match DenoteEntries(entries, before) case Good(v) => Build(rest, Open(b, v)) case Bad => Failed
    decreases entries, 1
  {
    if entries == [] {
      assert FlattenEntries(entries) + rest == rest;
    } else {
      var Entry(k, n) := entries[0];
      var more := FlattenEntries(entries[1..]) + rest;
      assert FlattenEntries(entries) + rest == [Token(KeyItem, k)] + (Flatten(n) + more);
      BuildOne(Token(KeyItem, k), Flatten(n) + more, Open(b, Table(before)));
      var keyed := Builder(b.ctxs + [Table(before)], b.keys + [k]);
      BuildNode(n, more, keyed);
      if Denote(n).Good? {
        var v := Denote(n).v;
        assert SetValue(keyed, v).b == Open(b, Table(before[k := v])) by { assert keyed.keys[..|b.keys|] == b.keys; }
        BuildEntries(entries[1..], before[k := v], rest, b);
      }
    }
  }

  /** The tokens of a whole document build exactly the map its entries denote. */
  lemma {:induction false} BuildDocument(entries: seq<Entry>, rest: seq<Token>)
    requires IsNode(Object(entries)) && rest != [] && rest[0].kind.EOF?
    ensures Build(FlattenEntries(entries) + rest, NEW) ==
            match Denote(Object(entries)) case Good(v) => Tree(Builder([v], [])) case Bad => Failed
  {
    var none := Builder([], []);
    BuildEntries(entries, map[], rest, none);
    assert Open(none, Table(map[])) == NEW;
  }

  // Comments

  predicate IsComment(t: Token) { t.kind.Text? || t.kind.CommentOpen? }

  function WithoutComments(ts: seq<Token>): seq<Token> {
    if ts == [] then [] else (if IsComment(ts[0]) then [] else [ts[0]]) + WithoutComments(ts[1..])
  }

  /** Comments in the stream make no difference to what is built. */
  lemma {:induction false} CommentsIgnored(ts: seq<Token>, b: Builder)
    ensures Build(WithoutComments(ts), b) == Build(ts, b)
    decreases |ts|
  {
    if ts != [] {
      if IsComment(ts[0]) {
        CommentsIgnored(ts[1..], b);
        assert [] + WithoutComments(ts[1..]) == WithoutComments(ts[1..]);
      } else if !ts[0].kind.EOF? {
        BuildOne(ts[0], WithoutComments(ts[1..]), b);
        if ProcessItem(b, ts[0]).Ok? { CommentsIgnored(ts[1..], ProcessItem(b, ts[0]).b); }
      }
    }
  }
}
