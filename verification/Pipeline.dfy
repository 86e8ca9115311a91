/** From a top-level expression to its value on the machine: the evaluator, the generator and the machine together. */
module Pipeline {

  import opened Options
  import opened Varuint
  import opened Machine
  import opened Icode
  import opened Meaning
  import opened Correct
  import opened Hoisting
  import E = Evaluate
  import opened Codegen

  /** The I-code of a top-level expression whose functions are numbered from v. */
  function Form(G: E.Globals, e: E.Expr, f: E.Flags, v: nat): Icode {
    E.Meaning(G, e, [], f, v).m
  }

  /** Evaluating and generating leaves at the program counter returned just the code that RunsExpression runs. */
  method Translate(env: Eenv, G: E.Globals, e: E.Expr, f: E.Flags, v: nat, ghost W: seq<Value>) returns (pc0: nat)
    requires env.Valid() && !E.IsTail(f) && Sized(Form(G, e, f, v), W)
    modifies env, env.code
    ensures env.Valid() && old(env.consts) <= env.consts && old(env.code.bytes) <= env.code.bytes
    ensures Sized(Form(G, e, f, v), env.consts)
    ensures At(env.code.bytes, pc0, Blocks(Form(G, e, f, v), env.consts, old(env.sources)) + TopCode(Form(G, e, f, v), env.consts, old(env.sources)))
  {
    hide Form, Blocks, TopCode, Sized;
    pc0 := GenerateTop(env, Form(G, e, f, v), W);
    assert env.consts <= env.consts;
    assert Sized(Form(G, e, f, v), env.consts);
  }

  /**
    The code of any expression, placed anywhere in the byte code of a machine that holds the program so far and
    called with a return address, comes back to that address with the expression's value and leaves nothing
    behind; and the machine then also holds the expression's functions.  If the expression faults, so does the machine.
   */
  lemma RunsExpression(G: E.Globals, e: E.Expr, f: E.Flags, v: nat, P: Program, im: Image, n: nat, s: State, fuel: nat) returns (t: State)
    requires !E.IsTail(f) && Sized(Form(G, e, f, v), im.consts) && Linked(P, im, s.store.values) && Returnable(true, s)
    requires At(im.code, s.pc, Blocks(Form(G, e, f, v), im.consts, n) + TopCode(Form(G, e, f, v), im.consts, n))
    ensures var m := Form(G, e, f, v);
      var o := FormValue(m, P, im, n, s, fuel);
      if o.Done? then
        && Reaches(im, s, t) && t.pc == s.stack.top.pc && t.stack == s.stack.rest && t.val == o.v && t.store == o.st
        && Linked(WithForm(P, m, im.consts, n, s.pc), im, t.store.values)
      else Fails(im, s, o.why, fuel)
  {
    hide Reaches, Linked, TopCode, Blocks, Eval, Sized, TailOK, WithForm, WithFunctions, ScopeOf, At, Returnable, Fails;
    assert TailOK(Form(G, e, f, v), false) by {
      E.TailPlaces(G, e, [], f, v);
    }
    t := RunsTop(P, im, Form(G, e, f, v), n, s, fuel);
  }

  /** A machine that holds nothing but the form's code can run it. */
  lemma Alone(m: Icode, K: seq<Value>, n: nat, prim: (nat, seq<Value>) -> Option<Value>, values: map<nat, Value>)
    requires |K| < U64 && |Blocks(m, K, n) + TopCode(m, K, n)| < U64
    ensures var im := Image(Blocks(m, K, n) + TopCode(m, K, n), K, prim);
      Linked(Program(map[], map[], prim), im, values) && At(im.code, 0, Blocks(m, K, n) + TopCode(m, K, n))
  {
    hide Blocks, TopCode;
  }
}
