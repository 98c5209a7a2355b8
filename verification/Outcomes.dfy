/** How lexing and parsing end: with a tree, with a refusal, or never, each with its exact
    condition. */
module Outcomes {
  import opened LexSpec
  import opened LexRun
  import opened TreeBuilder
  import opened Simulation

  predicate EndsWell(ts: seq<Token>) {
    ts != [] && Last(ts).kind.EOF?
  }

  predicate EndsInError(ts: seq<Token>) {
    ts != [] && Last(ts).kind.Error?
  }

  /** Every number, boolean and date of these tokens converts. */
  predicate Converts(ts: seq<Token>) {
    forall i :: 0 <= i < |ts| ==> IsScalar(ts[i].kind) ==> ScalarValue(ts[i]).Good?
  }

  /** The outcome r is the one the tokens, and whether the run comes to its end, call for. */
  predicate CalledFor(ts: seq<Token>, runsOut: bool, r: Parsed) {
    && (r.Tree? <==> EndsWell(ts) && Converts(ts))
    && (r.Endless? <==> runsOut && Converts(ts))
    && (r.Failed? <==> EndsInError(ts) || !Converts(ts))
    && !r.Crashed?
  }

  /** What one token more in front does to the outcome. */
  lemma OneTokenMore(t: Token, rest: seq<Token>, runsOut: bool, r: Parsed)
    requires CalledFor(rest, runsOut, r) && !t.kind.Error? && !t.kind.EOF?
    requires IsScalar(t.kind) ==> ScalarValue(t).Good?
    ensures CalledFor([t] + rest, runsOut, r)
  {
    ConvertsMore(t, rest);
    assert Last([t] + rest) == if rest == [] then t else Last(rest);
  }

  lemma ConvertsMore(t: Token, rest: seq<Token>)
    ensures Converts([t] + rest) <==> (IsScalar(t.kind) ==> ScalarValue(t).Good?) && Converts(rest)
  {
    assert ([t] + rest)[0] == t && ([t] + rest)[1..] == rest;
    assert forall i :: 0 <= i < |rest| ==> rest[i] == ([t] + rest)[i + 1];
  }

  lemma RefusedIff(b: Builder, t: Token)
    ensures ProcessItem(b, t).Refused? <==> t.kind.Error? || (IsScalar(t.kind) && ScalarValue(t).Bad?)
  {
  }

  /** A last token, or one that is refused, settles the outcome. */
  lemma SettledBy(t: Token, rest: seq<Token>, runsOut: bool, b: Builder)
    requires !ProcessItem(b, t).Bug?
    requires t.kind.EOF? || t.kind.Error? ==> rest == [] && !runsOut
    requires t.kind.EOF? || ProcessItem(b, t).Refused?
    ensures CalledFor([t] + rest, runsOut, Build([t] + rest, b))
  {
    ConvertsMore(t, rest);
    RefusedIff(b, t);
    if !t.kind.EOF? { BuildOne(t, rest, b); }
    if rest == [] { assert Last([t] + rest) == t; }
  }

  /** The parser takes one token: that settles the outcome, or leaves it to the rest. */
  lemma TakeOne(ks: seq<Context>, waiting: nat, t: Token, ks': seq<Context>, waiting': nat,
                rest: seq<Token>, runsOut: bool, b: Builder, extra: nat) returns (end: bool, b': Builder)
    requires Sim(ks, waiting, b, extra) && Effect(ks, waiting, t.kind, ks', waiting')
    requires t.kind.EOF? || t.kind.Error? ==> rest == [] && !runsOut
    ensures end ==> CalledFor([t] + rest, runsOut, Build([t] + rest, b))
    ensures !end ==> !t.kind.Error? && !t.kind.EOF? && Sim(ks', waiting', b', extra)
    ensures !end ==> CalledFor(rest, runsOut, Build(rest, b')) ==> CalledFor([t] + rest, runsOut, Build([t] + rest, b))
  {
    Heeds(ks, waiting, t, ks', waiting', b, extra);
    RefusedIff(b, t);
    if t.kind.EOF? || ProcessItem(b, t).Refused? {
      SettledBy(t, rest, runsOut, b);
      end, b' := true, b;
    } else {
      end, b' := false, ProcessItem(b, t).b;
      BuildOne(t, rest, b);
      if CalledFor(rest, runsOut, Build(rest, b')) { OneTokenMore(t, rest, runsOut, Build(rest, b')); }
    }
  }

  /** The outcome of the rest of a run is the one called for. */
  ghost predicate CalledForFrom(input: string, c: Conf, b: Builder)
    requires Inv(input, c)
  {
    CalledFor(Tokens(input, c), RunsOut(input, c), Build(Tokens(input, c), b))
  }

  /** One step of the joint run settles the outcome or leaves it to another joint state. */
  lemma OutcomeStep(input: string, c: Conf, b: Builder, extra: nat)
    returns (end: bool, to: Conf, b': Builder, extra': nat)
    requires Joint(input, c, b, extra) && !Stuck(input, c)
    ensures end ==> CalledForFrom(input, c, b)
    ensures !end ==> Joint(input, to, b', extra') && Measure(input, to) < Measure(input, c)
    ensures !end ==> CalledForFrom(input, to, b') ==> CalledForFrom(input, c, b)
  {
    var out, dropped;
    to, out, dropped := LexerStep(input, c);
    end, b', extra' := false, b, extra + dropped;
    var rest, runsOut := Tokens(input, to), RunsOut(input, to);
    if out == [] {
      assert out + rest == rest;
    } else {
      assert out == [out[0]];
      end, b' := TakeOne(Contexts(c), Waiting(c), out[0], Contexts(to), Waiting(to), rest, runsOut, b, extra);
    }
  }

  lemma {:induction false} OutcomeFrom(input: string, c: Conf, b: Builder, extra: nat)
    requires Joint(input, c, b, extra)
    ensures CalledForFrom(input, c, b)
    decreases Measure(input, c)
  {
    if !Stuck(input, c) {
      var end, to, b', extra' := OutcomeStep(input, c, b, extra);
      if !end { OutcomeFrom(input, to, b', extra'); }
    }
  }

  /** Every input: the parser returns a tree exactly when the lexer reaches the end of the
      file and every scalar on the way converts; it refuses exactly when some scalar does not,
      or the lexer stops with an error; and it never returns exactly when the lexer runs out
      of input seeking a delimiter and no scalar before that is refused. */
  lemma OutcomeIff(input: string)
    ensures Inv(input, START)
    ensures var ts := Tokens(input, START);
            && (Parse(input).Tree? <==> EndsWell(ts) && Converts(ts))
            && (Parse(input).Endless? <==> RunsOut(input, START) && Converts(ts))
            && (Parse(input).Failed? <==> EndsInError(ts) || !Converts(ts))
  {
    StartJoint(input);
    OutcomeFrom(input, START, NEW, 0);
  }
}
