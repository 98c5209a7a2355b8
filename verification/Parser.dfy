/** The parser as the program keeps it: an object with a current context, a stack of
    contexts and a stack of keys, fed by the lexer. */
module Parser {
  import opened LexSpec
  import opened LexRun
  import opened TreeBuilder
  import opened Simulation
  import Outcomes
  import Lex = Lexer

  /** How an item was taken; Panics are the three "BUG in parser" exits. */
  datatype Taken = Went | Declined | Panicked

  class Parser {
    const lx: Lex.Lexer
    var ctx: Value
    var ctxs: seq<Value>
    var keys: seq<string>

    function Built(): Builder reads this { Builder(ctxs, keys) }

    /** The current context is the innermost one on the stack. */
    ghost predicate Valid() reads this {
      ctxs != [] && ctx == ctxs[|ctxs| - 1]
    }

    /** What the machine says of the same item in the same state is what has happened. */
    ghost predicate Did(o: Outcome, t: Taken) reads this {
      match o
      case Ok(b) => t.Went? && Valid() && Built() == b
      case Refused => t.Declined?
      case Bug => t.Panicked?
    }

    constructor (data: string)
      ensures fresh(lx) && lx.input == data && lx.Here() == START && lx.items == [] && lx.Ready()
      ensures Valid() && Built() == NEW
    {
      lx := new Lex.Lexer(data);
      ctxs, keys := [], [];
      new;
      PushContext(Table(map[]));
    }

    method PushContext(v: Value)
      modifies this`ctx, this`ctxs
      ensures Valid() && ctxs == old(ctxs) + [v]
    {
      ctxs := ctxs + [v];
      ctx := v;
    }

    /** Removes the innermost context; with none there, or none left below it, panics. */
    method PopContext() returns (ok: bool, last: Value)
      modifies this`ctx, this`ctxs
      ensures ok <==> |old(ctxs)| >= 2
      ensures ok ==> Valid() && old(ctxs) == ctxs + [last]
      ensures ok ==> |ctxs| == |old(ctxs)| - 1
    {
      if ctxs == [] { return false, ctx; }
      var li := |ctxs| - 1;
      last := ctxs[li];
      ctxs := ctxs[..li];
      ok := ctxs != [];
      if ok { ctx := ctxs[|ctxs| - 1]; }
    }

    method PushKey(key: string)
      modifies this`keys
      ensures keys == old(keys) + [key]
    {
      keys := keys + [key];
    }

    method PopKey() returns (ok: bool, last: string)
      modifies this`keys
      ensures ok <==> old(keys) != []
      ensures if ok then old(keys) == keys + [last] && |keys| == |old(keys)| - 1 else keys == old(keys)
    {
      ok, last := keys != [], "";
      if ok {
        var li := |keys| - 1;
        last := keys[li];
        keys := keys[..li];
      }
    }

    /** Onto the current array, or under the last key in the current map. */
    method SetValue(v: Value) returns (t: Taken)
      requires Valid()
      modifies this`ctx, this`ctxs, this`keys
      ensures Did(TreeBuilder.SetValue(old(Built()), v), t)
    {
      t := Went;
      if ctx.Arr? {
        ctx := Arr(ctx.es + [v]);
        ctxs := ctxs[|ctxs| - 1 := ctx];
      }
      if ctx.Table? {
        var ok, key := PopKey();
        if !ok { return Panicked; }
        ctx := Table(ctx.m[key := v]);
        ctxs := ctxs[|ctxs| - 1 := ctx];
      }
    }

    /** The closed context becomes a value of the one it stood in. */
    method CloseContext() returns (t: Taken)
      requires Valid()
      modifies this`ctx, this`ctxs, this`keys
      ensures Did(Close(old(Built())), t)
    {
      var ok, last := PopContext();
      if !ok { return Panicked; }
      assert old(ctxs)[..|ctxs|] == ctxs;
      t := SetValue(last);
    }

    method ProcessItem(item: Item) returns (t: Taken)
      requires Valid()
      modifies this`ctx, this`ctxs, this`keys
      ensures Did(TreeBuilder.ProcessItem(old(Built()), TokenOf(item)), t)
    {
      t := Went;
      match item.kind
      case Error => t := Declined;
      case KeyItem => PushKey(item.val);
      case MapOpen => PushContext(Table(map[]));
      case ArrayOpen => PushContext(Arr([]));
      case MapClose => t := CloseContext();
      case ArrayClose => t := CloseContext();
      case EOF =>
      case Text =>
      case CommentOpen =>
      case _ =>
        match ScalarValue(TokenOf(item))
        case Good(v) => t := SetValue(v);
        case Bad => t := Declined;
    }
  }

  /** The lexer is between two requests, and what it will still deliver builds, on what has
      been built so far, what the whole input builds. */
  ghost predicate Reading(p: Parser, data: string)
    reads p, p.lx
  {
    && p.Valid() && p.lx.input == data && p.lx.OnLine() && p.lx.items == [] && !p.lx.state.Halted?
    && Inv(data, p.lx.Here()) && Build(Tokens(data, p.lx.Here()), p.Built()) == TreeBuilder.Parse(data)
  }

  /** Parses the data, item by item. The result is what the machines say; none of the panics
      is ever reached; and the root map is returned alone on the stack of contexts. */
  method Parse(data: string) returns (r: Parsed)
    ensures r == TreeBuilder.Parse(data) && !r.Crashed?
    ensures Inv(data, START)
    ensures r.Endless? <==> RunsOut(data, START) && Outcomes.Converts(Tokens(data, START))
    ensures r.Tree? ==> |r.b.ctxs| == 1 && r.b.ctxs[0].Table? && |r.b.keys| == Drops(data, START)
  {
    ParseNeverCrashes(data);
    Outcomes.OutcomeIff(data);
    var p := new Parser(data);
    while true
      invariant fresh(p) && fresh(p.lx) && Reading(p, data)
      decreases |Tokens(data, p.lx.Here())|
    {
      ghost var b, ts := p.Built(), Tokens(data, p.lx.Here());
      var reply := p.lx.NextItem();
      if reply.Spins? { return Endless; }
      var item := reply.item;
      ghost var rest := Tokens(data, p.lx.Here());
      assert ts == [TokenOf(item)] + rest;
      if item.kind.EOF? { return Tree(p.Built()); }
      BuildOne(TokenOf(item), rest, b);
      var t := p.ProcessItem(item);
      if t.Declined? { return Failed; }
      if t.Panicked? { return Crashed; }
    }
  }
}
