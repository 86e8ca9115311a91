/** The three fates of a form, said of the source: its run on the machine ends as the expression does, or not at all. */
module SourceFates {

  import opened Varuint
  import opened Machine
  import opened Icode
  import opened Meaning
  import opened Correct
  import opened Hoisting
  import opened Pipeline
  import opened Source
  import opened SourceCorrect
  import opened WholePrograms
  import opened Homes
  import opened Fates
  import opened E = Evaluate

  /** The code of a proper expression is next, to return outside the byte code, and no dynamic or environment variable is assigned. */
  ghost predicate Ready(S: Library, e: Expr, f: Flags, v: nat, P: Program, im: Image, n: nat, s: State) {
    && !IsTail(f) && Proper(e) && Inside(e, false) && Matches(S, P) && Calm(S.G, e, []) && CalmLibrary(S)
    && Sized(Form(S.G, e, f, v), im.consts) && Linked(P, im, s.store.values) && Returnable(true, s) && s.stack.top.pc >= |im.code|
    && At(im.code, s.pc, Blocks(Form(S.G, e, f, v), im.consts, n) + TopCode(Form(S.G, e, f, v), im.consts, n))
  }

  /** All functions at hand are from the library with the form's own, and its expressions are tidy. */
  ghost predicate AtHome(S: Library, e: Expr, f: Flags, v: nat, im: Image, n: nat, s: State) {
    var T := WithSource(S, e, f, v, im.consts, n, s.pc);
    && TidyLibrary(T) && Tidy(T, e, [], v) && HomeScope(T, s.store.frames, ScopeOf(s.stack))
    && HomeStore(T, WithFunctions(s.store, Form(S.G, e, f, v), im.consts, n, s.pc, s.frame))
  }

  /** So the form does not leave the library, and leaves all at home. */
  lemma StaysHome(S: Library, e: Expr, f: Flags, v: nat, im: Image, n: nat, s: State, fuel: nat)
    requires AtHome(S, e, f, v, im, n, s)
    ensures Kept(WithSource(S, e, f, v, im.consts, n, s.pc), ScopeOf(s.stack), s.store.frames, SourceValue(S, e, f, v, im, n, s, fuel))
  {
    hide SEval, WithSource, TidyLibrary, Tidy, HomeScope, HomeStore, Form, Kept, Loaded, ScopeOf;
    SStays(WithSource(S, e, f, v, im.consts, n, s.pc), e, [], [], NoFrame, v, ScopeOf(s.stack),
           WithFunctions(s.store, Form(S.G, e, f, v), im.consts, n, s.pc, s.frame), fuel);
  }

  ghost predicate SourceHas(S: Library, e: Expr, f: Flags, v: nat, im: Image, n: nat, s: State) {
    exists fuel: nat :: SourceValue(S, e, f, v, im, n, s, fuel).Had?
  }

  ghost predicate SourceFaults(S: Library, e: Expr, f: Flags, v: nat, im: Image, n: nat, s: State) {
    exists fuel: nat :: var r := SourceValue(S, e, f, v, im, n, s, fuel); r.Nothing? && r.why == Fault
  }

  /** With any number of calls allowed, the run comes out, halts, or takes as many steps. */
  lemma EachFuel(S: Library, e: Expr, f: Flags, v: nat, P: Program, im: Image, n: nat, s: State, fuel: nat)
    requires Ready(S, e, f, v, P, im, n, s)
    ensures var r := SourceValue(S, e, f, v, im, n, s, fuel);
      && (r.Had? ==> ComesOut(im, s))
      && (r.Nothing? && r.why == Fault ==> Halts(im, s))
      && (r.Nothing? && r.why == Deep ==> Lasts(im, s, fuel))
  {
    hide SourceValue, Linked, Sized, At, Blocks, TopCode, Form, Reaches, Halts, Lasts, Proper, Inside, Matches, Calm, CalmLibrary, IsTail;
    var t := RunsSource(S, e, f, v, P, im, n, s, fuel);
  }

  /**
    The run of a form comes out if and only if the expression has a value in the source language, halts if and only
    if the expression faults, and goes on for ever if and only if it does neither.
   */
  lemma SourceFate(S: Library, e: Expr, f: Flags, v: nat, P: Program, im: Image, n: nat, s: State)
    requires Ready(S, e, f, v, P, im, n, s) && AtHome(S, e, f, v, im, n, s)
    ensures ComesOut(im, s) <==> SourceHas(S, e, f, v, im, n, s)
    ensures Halts(im, s) <==> SourceFaults(S, e, f, v, im, n, s)
    ensures Forever(im, s) <==> !SourceHas(S, e, f, v, im, n, s) && !SourceFaults(S, e, f, v, im, n, s)
  {
    hide SourceValue, ComesOut, Halts, Lasts, Ready, AtHome, WithSource, ScopeOf, Home, HomeStore, HomeScope, Grew;
    OneFate(im, s);
    forall fuel: nat
      ensures var r := SourceValue(S, e, f, v, im, n, s, fuel);
        && (r.Had? ==> ComesOut(im, s))
        && (r.Nothing? && r.why == Fault ==> Halts(im, s))
        && (r.Nothing? && r.why == Deep ==> Lasts(im, s, fuel))
    {
      EachFuel(S, e, f, v, P, im, n, s, fuel);
    }
    if !SourceHas(S, e, f, v, im, n, s) && !SourceFaults(S, e, f, v, im, n, s) {
      forall fuel: nat
        ensures Lasts(im, s, fuel)
      {
        StaysHome(S, e, f, v, im, n, s, fuel);
        assert !SourceValue(S, e, f, v, im, n, s, fuel).Had?;
      }
    }
  }

  /** Whatever comes out is the value the expression has in the source language. */
  lemma OnlySourceValue(S: Library, e: Expr, f: Flags, v: nat, P: Program, im: Image, n: nat, s: State, t: State) returns (fuel: nat)
    requires Ready(S, e, f, v, P, im, n, s) && AtHome(S, e, f, v, im, n, s) && Reaches(im, s, t) && t.pc >= |im.code|
    ensures var r := SourceValue(S, e, f, v, im, n, s, fuel);
      r.Had? && t.val == r.v && t.store == r.st && t.pc == s.stack.top.pc && t.stack == s.stack.rest
    ensures HomeStore(WithSource(S, e, f, v, im.consts, n, s.pc), t.store)
  {
    hide SourceValue, Linked, Sized, At, Blocks, TopCode, Form, Reaches, Halts, Step, Proper, Inside, Matches, Calm, CalmLibrary, IsTail;
    hide AtHome, WithSource, ScopeOf, Home, HomeStore, HomeScope, Grew, Fails;
    assert ComesOut(im, s);
    SourceFate(S, e, f, v, P, im, n, s);
    fuel :| SourceValue(S, e, f, v, im, n, s, fuel).Had?;
    var u := RunsSource(S, e, f, v, P, im, n, s, fuel);
    NothingOutside(im, t);
    NothingOutside(im, u);
    OneEnd(im, s, t, u);
    StaysHome(S, e, f, v, im, n, s, fuel);
  }
}
