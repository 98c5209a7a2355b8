/** Which inputs the parser reads as they are written: the lexer's tokens are those of a
    well-bracketed document exactly when no map is closed between a key and its value. */
module Documents {
  import opened LexSpec
  import opened LexRun
  import opened TreeBuilder
  import opened Simulation
  import opened Outcomes

  /** An open context with what has been read in it; `key` is a key still without a value. */
  datatype Frame = FList(es: seq<Node>) | FObject(entries: seq<Entry>, key: seq<string>)

  predicate FrameFits(f: Frame, k: Context, keyed: bool) {
    if k.Array? then f.FList? && IsNode(List(f.es))
    else f.FObject? && |f.key| == (if keyed then 1 else 0) && IsNode(Object(f.entries))
  }

  predicate AllKeyed(ks: seq<Context>, fs: seq<Frame>) {
    |ks| == |fs| &&
    (ks == [] || (FrameFits(Last(fs), Last(ks), true) && AllKeyed(ks[..|ks| - 1], fs[..|fs| - 1])))
  }

  /** Every map above the innermost context has a key whose value is being read; the
      innermost has one when a key has been delivered in it and no value. */
  predicate Fit(ks: seq<Context>, waiting: nat, fs: seq<Frame>) {
    && ks != [] && |ks| == |fs| && InRange(ks, waiting)
    && FrameFits(Last(fs), Last(ks), waiting > MapsIn(ks[..|ks| - 1]))
    && AllKeyed(ks[..|ks| - 1], fs[..|fs| - 1])
  }

  predicate InRange(ks: seq<Context>, waiting: nat) {
    ks != [] && MapsIn(ks[..|ks| - 1]) <= waiting <= MapsIn(ks)
  }

  lemma PlaceFacts(input: string, c: Conf)
    requires Inv(input, c) && !c.state.Halted?
    ensures var p := PlaceOf(c.state);
            (p.Inside? ==> p.keyed ==> p.k == Map) && (!p.Inside? ==> c.stack != []) && !p.Nowhere?
  {
  }

  lemma MapsSnoc(ks: seq<Context>, k: Context)
    ensures (ks + [k])[..|ks|] == ks && MapsIn(ks + [k]) == MapsIn(ks) + Binds(k)
  {
    assert (ks + [k])[..|ks|] == ks;
  }

  lemma RangeInside(stack: seq<State>, k: Context)
    ensures MapsIn((Spelled(stack) + [k])[..|stack|]) == Maps(stack)
    ensures MapsIn(Spelled(stack) + [k]) == Maps(stack) + Binds(k)
  {
    MapsSpelled(stack);
    MapsSnoc(Spelled(stack), k);
  }

  lemma RangeBelow(stack: seq<State>)
    requires stack != []
    ensures MapsIn(Spelled(stack)) == Maps(stack)
    ensures MapsIn(Spelled(stack)[..|stack| - 1]) == Maps(stack[..|stack| - 1])
  {
    MapsSpelled(stack);
    MapsSpelled(stack[..|stack| - 1]);
    assert Spelled(stack)[..|stack| - 1] == Spelled(stack[..|stack| - 1]);
  }

  lemma Range(input: string, c: Conf)
    requires Inv(input, c) && !c.state.Halted?
    ensures InRange(Contexts(c), Waiting(c))
  {
    PlaceFacts(input, c);
    var p := PlaceOf(c.state);
    if p.Inside? { RangeInside(c.stack, p.k); } else { RangeBelow(c.stack); }
  }

  // The tokens of what has been read so far

  function Contents(f: Frame): seq<Token> {
    match f
    case FList(es) => FlattenList(es)
    case FObject(entries, key) => FlattenEntries(entries) + if key == [] then [] else [Token(KeyItem, key[0])]
  }

  function Opening(f: Frame): Token {
    Token(if f.FList? then ArrayOpen else MapOpen, "")
  }

  function Written(fs: seq<Frame>): seq<Token> {
    if fs == [] then []
    else Written(fs[..|fs| - 1]) + (if |fs| == 1 then [] else [Opening(Last(fs))]) + Contents(Last(fs))
  }

  lemma {:induction false} ListGrows(es: seq<Node>, n: Node)
    ensures FlattenList(es + [n]) == FlattenList(es) + Flatten(n)
  {
    if es == [] {
      assert [n][1..] == [] && es + [n] == [n];
      assert FlattenList([n]) == Flatten(n) + FlattenList([]);
    } else {
      ListGrows(es[1..], n);
      assert (es + [n])[0] == es[0] && (es + [n])[1..] == es[1..] + [n];
    }
  }

  lemma {:induction false} EntriesGrow(entries: seq<Entry>, e: Entry)
    ensures FlattenEntries(entries + [e]) == FlattenEntries(entries) + [Token(KeyItem, e.key)] + Flatten(e.node)
  {
    if entries == [] {
      assert [e][1..] == [] && entries + [e] == [e];
      assert FlattenEntries([e]) == [Token(KeyItem, e.key)] + Flatten(e.node) + FlattenEntries([]);
    } else {
      EntriesGrow(entries[1..], e);
      assert (entries + [e])[0] == entries[0] && (entries + [e])[1..] == entries[1..] + [e];
    }
  }

  lemma WrittenSnoc(outer: seq<Frame>, f: Frame)
    ensures Written(outer + [f]) == Written(outer) + (if outer == [] then [] else [Opening(f)]) + Contents(f)
  {
    assert (outer + [f])[..|outer|] == outer;
  }

  /** The innermost context changes and grows by these tokens. */
  lemma WrittenLast(outer: seq<Frame>, f: Frame, f': Frame, more: seq<Token>)
    requires Opening(f') == Opening(f) && Contents(f') == Contents(f) + more
    ensures Written(outer + [f']) == Written(outer + [f]) + more
  {
    WrittenSnoc(outer, f);
    WrittenSnoc(outer, f');
    Regroup(Written(outer), if outer == [] then [] else [Opening(f)], Contents(f), more);
  }

  lemma Regroup(a: seq<Token>, b: seq<Token>, c: seq<Token>, d: seq<Token>)
    ensures a + b + (c + d) == a + b + c + d
  {
  }

  /** A frame with the value added that was being read in it. */
  function Added(f: Frame, node: Node): Frame
    requires f.FObject? ==> f.key != []
  {
    match f
    case FList(es) => FList(es + [node])
    case FObject(entries, key) => FObject(entries + [Entry(key[0], node)], [])
  }

  lemma AddedContents(f: Frame, k: Context, node: Node)
    requires FrameFits(f, k, true) && IsNode(node)
    ensures FrameFits(Added(f, node), k, false) && Opening(Added(f, node)) == Opening(f)
    ensures Contents(Added(f, node)) == Contents(f) + Flatten(node)
  {
    if f.FList? { ListGrows(f.es, node); } else { EntriesGrow(f.entries, Entry(f.key[0], node)); }
  }

  /** A value completed in the innermost context. */
  lemma AddNode(ks: seq<Context>, waiting: nat, fs: seq<Frame>, node: Node) returns (fs': seq<Frame>)
    requires Fit(ks, waiting, fs) && IsNode(node) && waiting == MapsIn(ks)
    ensures Fit(ks, waiting - Binds(Last(ks)), fs') && Written(fs') == Written(fs) + Flatten(node)
  {
    var outer, f := fs[..|fs| - 1], Last(fs);
    assert FrameFits(f, Last(ks), true);
    AddedContents(f, Last(ks), node);
    WrittenLast(outer, f, Added(f, node), Flatten(node));
    assert outer + [f] == fs;
    fs' := outer + [Added(f, node)];
    Refit(ks, waiting - Binds(Last(ks)), outer, Added(f, node));
  }

  /** The frames below stay; the innermost one fits again. */
  lemma Refit(ks: seq<Context>, waiting: nat, outer: seq<Frame>, f: Frame)
    requires ks != [] && InRange(ks, waiting) && AllKeyed(ks[..|ks| - 1], outer)
    requires FrameFits(f, Last(ks), waiting > MapsIn(ks[..|ks| - 1]))
    ensures Fit(ks, waiting, outer + [f])
  {
    assert (outer + [f])[..|outer|] == outer;
  }

  lemma OpenFrame(ks: seq<Context>, waiting: nat, fs: seq<Frame>, k: Context, f: Frame)
    requires Fit(ks, waiting, fs) && waiting == MapsIn(ks) && Contents(f) == [] && FrameFits(f, k, false)
    ensures Fit(ks + [k], waiting, fs + [f]) && Written(fs + [f]) == Written(fs) + [Opening(f)]
  {
    var n := |ks|;
    assert (ks + [k])[..n] == ks && (fs + [f])[..n] == fs;
    assert AllKeyed(ks, fs);
  }

  /** The node a frame becomes when its context is closed. */
  function Closed(f: Frame): Node {
    if f.FList? then List(f.es) else Object(f.entries)
  }

  lemma ClosedTokens(f: Frame, k: Context)
    requires FrameFits(f, k, false)
    ensures IsNode(Closed(f))
    ensures Flatten(Closed(f)) == [Opening(f)] + Contents(f) + [Token(if k.Array? then ArrayClose else MapClose, "")]
  {
  }

  lemma Uncover(ks: seq<Context>, k: Context, waiting: nat, fs: seq<Frame>)
    requires ks != [] && Fit(ks + [k], waiting, fs) && waiting == MapsIn(ks)
    ensures |fs| == |ks| + 1 && AllKeyed(ks, fs[..|ks|]) && FrameFits(Last(fs), k, false)
  {
    assert (ks + [k])[..|ks|] == ks;
  }

  lemma Bracketed(before: seq<Token>, open: Token, inside: seq<Token>, close: Token)
    ensures before + ([open] + inside + [close]) == before + [open] + inside + [close]
  {
  }

  lemma CloseFrame(ks: seq<Context>, k: Context, waiting: nat, fs: seq<Frame>) returns (fs': seq<Frame>)
    requires ks != [] && Fit(ks + [k], waiting, fs) && waiting == MapsIn(ks)
    ensures Fit(ks, waiting - Binds(Last(ks)), fs')
    ensures Written(fs') == Written(fs) + [Token(if k.Array? then ArrayClose else MapClose, "")]
  {
    Uncover(ks, k, waiting, fs);
    var outer, f := fs[..|ks|], Last(fs);
    InnerFits(ks, waiting, outer);
    fs' := CloseInto(ks, k, waiting, outer, f);
    assert outer + [f] == fs;
  }

  lemma CloseInto(ks: seq<Context>, k: Context, waiting: nat, outer: seq<Frame>, f: Frame) returns (fs': seq<Frame>)
    requires ks != [] && Fit(ks, waiting, outer) && waiting == MapsIn(ks) && FrameFits(f, k, false)
    ensures Fit(ks, waiting - Binds(Last(ks)), fs')
    ensures Written(fs') == Written(outer + [f]) + [Token(if k.Array? then ArrayClose else MapClose, "")]
  {
    ClosedTokens(f, k);
    var close := Token(if k.Array? then ArrayClose else MapClose, "");
    WrittenSnoc(outer, f);
    fs' := AddNode(ks, waiting, outer, Closed(f));
    Bracketed(Written(outer), Opening(f), Contents(f), close);
  }

  lemma InnerFits(ks: seq<Context>, waiting: nat, fs: seq<Frame>)
    requires ks != [] && AllKeyed(ks, fs) && waiting == MapsIn(ks)
    ensures Fit(ks, waiting, fs)
  {
  }

  lemma ReadKey(ks: seq<Context>, waiting: nat, key: string, fs: seq<Frame>) returns (fs': seq<Frame>)
    requires Fit(ks, waiting, fs) && !Last(ks).Array? && InRange(ks, waiting + 1)
    ensures Fit(ks, waiting + 1, fs') && Written(fs') == Written(fs) + [Token(KeyItem, key)]
  {
    var outer, f := fs[..|fs| - 1], Last(fs);
    var f' := FObject(f.entries, [key]);
    WrittenLast(outer, f, f', [Token(KeyItem, key)]);
    assert outer + [f] == fs;
    fs' := outer + [f'];
    Refit(ks, waiting + 1, outer, f');
  }

  lemma ReadOpen(ks: seq<Context>, waiting: nat, fs: seq<Frame>, k: Context, f: Frame) returns (fs': seq<Frame>)
    requires Fit(ks, waiting, fs) && InRange(ks + [k], waiting) && Contents(f) == [] && FrameFits(f, k, false)
    ensures Fit(ks + [k], waiting, fs') && Written(fs') == Written(fs) + [Opening(f)]
  {
    assert (ks + [k])[..|ks|] == ks;
    OpenFrame(ks, waiting, fs, k, f);
    fs' := fs + [f];
  }

  /** One token of the lexer, with the effect it has, is one token more of the document. */
  lemma ReadToken(ks: seq<Context>, waiting: nat, t: Token, ks': seq<Context>, waiting': nat, fs: seq<Frame>)
    returns (fs': seq<Frame>)
    requires Fit(ks, waiting, fs) && Effect(ks, waiting, t.kind, ks', waiting') && InRange(ks', waiting')
    requires !t.kind.Error? && !t.kind.EOF? && (IsBracket(t.kind) ==> t.val == "")
    ensures Fit(ks', waiting', fs')
    ensures Written(fs') == Written(fs) + if IsComment(t) then [] else [t]
  {
    match t.kind
    case KeyItem => fs' := ReadKey(ks, waiting, t.val, fs);
    case MapOpen => fs' := ReadOpen(ks, waiting, fs, Map, FObject([], []));
    case ArrayOpen => fs' := ReadOpen(ks, waiting, fs, Array, FList([]));
    case MapClose => fs' := ReadClose(ks, waiting, Map, ks', waiting', fs);
    case ArrayClose => fs' := ReadClose(ks, waiting, Array, ks', waiting', fs);
    case Text => fs' := fs;
    case CommentOpen => fs' := fs;
    case _ => fs' := AddNode(ks, waiting, fs, Leaf(t));
  }

  lemma ReadClose(ks: seq<Context>, waiting: nat, k: Context, ks': seq<Context>, waiting': nat, fs: seq<Frame>)
    returns (fs': seq<Frame>)
    requires Fit(ks, waiting, fs) && ks == ks' + [k] && ks' != []
    requires waiting == MapsIn(ks') && waiting' + Binds(Last(ks')) == waiting
    ensures Fit(ks', waiting', fs')
    ensures Written(fs') == Written(fs) + [Token(if k.Array? then ArrayClose else MapClose, "")]
  {
    fs' := CloseFrame(ks', k, waiting, fs);
  }

  // Whole inputs

  /** A step of the lexer that drops no key, and the token it delivers. */
  lemma QuietStep(input: string, c: Conf) returns (to: Conf, out: seq<Token>)
    requires Inv(input, c) && !Settled(input, c) && Drops(input, c) == 0
    ensures Inv(input, to) && Drops(input, to) == 0 && Tokens(input, c) == out + Tokens(input, to)
    ensures to.state.Halted? ==> Tokens(input, to) == []
    ensures to.state.Halted? || (Measure(input, to) < Measure(input, c) && InRange(Contexts(to), Waiting(to)))
    ensures out == [] ==> !to.state.Halted? && Contexts(to) == Contexts(c) && Waiting(to) == Waiting(c)
    ensures out != [] ==> out == [out[0]] && (to.state.Halted? <==> out[0].kind.Error? || out[0].kind.EOF?)
    ensures out != [] ==> Effect(Contexts(c), Waiting(c), out[0].kind, Contexts(to), Waiting(to))
    ensures out != [] && IsBracket(out[0].kind) ==> out[0].val == ""
  {
    var dropped;
    to, out, dropped := LexerStep(input, c);
    if !to.state.Halted? { Range(input, to); }
  }

  /** The rest of a run that drops no key and reaches the end completes a document. */
  lemma {:induction false} Completes(input: string, c: Conf, fs: seq<Frame>) returns (entries: seq<Entry>)
    requires Inv(input, c) && !c.state.Halted? && Fit(Contexts(c), Waiting(c), fs)
    requires Drops(input, c) == 0 && EndsWell(Tokens(input, c))
    ensures IsNode(Object(entries))
    ensures Written(fs) + WithoutComments(Tokens(input, c)) == FlattenEntries(entries) + [Token(EOF, "")]
    decreases Measure(input, c)
  {
    var to, out := QuietStep(input, c);
    var rest := Tokens(input, to);
    if out == [] {
      assert out + rest == rest;
      entries := Completes(input, to, fs);
    } else if to.state.Halted? {
      assert out + [] == out;
      LastToken(fs, out[0]);
      entries := Last(fs).entries;
    } else {
      EndsLater(out[0], rest);
      var fs' := ReadToken(Contexts(c), Waiting(c), out[0], Contexts(to), Waiting(to), fs);
      entries := Completes(input, to, fs');
      MoveOver(Written(fs), out[0], rest);
    }
  }

  lemma EndsLater(t: Token, rest: seq<Token>)
    requires EndsWell([t] + rest) && !t.kind.EOF?
    ensures EndsWell(rest)
  {
    assert Last([t] + rest) == if rest == [] then t else Last(rest);
  }

  lemma MoveOver(before: seq<Token>, t: Token, rest: seq<Token>)
    ensures before + WithoutComments([t] + rest) ==
            before + (if IsComment(t) then [] else [t]) + WithoutComments(rest)
  {
    assert ([t] + rest)[1..] == rest;
  }

  lemma LastToken(fs: seq<Frame>, t: Token)
    requires Fit([Root], 0, fs) && t == Token(EOF, "")
    ensures Last(fs).FObject? && IsNode(Object(Last(fs).entries))
    ensures Written(fs) + WithoutComments([t]) == FlattenEntries(Last(fs).entries) + [t]
  {
    assert WithoutComments([t]) == [t] + WithoutComments([]);
    assert fs == [fs[0]];
    assert Written([]) == [] && fs[..0] == [];
  }

  /** The lexer reads the input as the document of these entries, comments aside. */
  predicate Spelling(input: string, entries: seq<Entry>)
    requires Inv(input, START)
  {
    IsNode(Object(entries)) &&
    WithoutComments(Tokens(input, START)) == FlattenEntries(entries) + [Token(EOF, "")]
  }

  lemma SpellingBuilds(input: string, entries: seq<Entry>)
    requires Inv(input, START) && Spelling(input, entries)
    ensures Parse(input) == match Denote(Object(entries)) case Good(v) => Tree(Builder([v], [])) case Bad => Failed
  {
    CommentsIgnored(Tokens(input, START), NEW);
    BuildDocument(entries, [Token(EOF, "")]);
  }

  /** Of the inputs the parser accepts, those in which no map is closed between a key and
      its value, and only those, are read as a document; and it builds what that denotes. */
  lemma ReadAsDocumentIff(input: string)
    requires Inv(input, START) && Parse(input).Tree?
    ensures (exists entries :: Spelling(input, entries)) <==> Drops(input, START) == 0
    ensures forall entries :: Spelling(input, entries) ==>
              Denote(Object(entries)).Good? && Parse(input) == Tree(Builder([Denote(Object(entries)).v], []))
  {
    forall entries | Spelling(input, entries)
      ensures Denote(Object(entries)).Good? && Parse(input) == Tree(Builder([Denote(Object(entries)).v], []))
    {
      SpellingBuilds(input, entries);
    }
    ParseNeverCrashes(input);
    if Drops(input, START) == 0 {
      OutcomeIff(input);
      StartFits();
      var fs := [FObject([], [])];
      var entries := Completes(input, START, fs);
      assert Written(fs) == [] && [] + WithoutComments(Tokens(input, START)) == WithoutComments(Tokens(input, START));
      assert Spelling(input, entries);
    }
  }

  lemma StartFits()
    ensures Fit(Contexts(START), Waiting(START), [FObject([], [])])
    ensures Written([FObject([], [])]) == []
  {
    var fs := [FObject([], [])];
    assert Contexts(START) == [Root] && [Root][..0] == [] && fs[..0] == [];
    assert Written(fs[..0]) == [];
  }
}
