/**
  The three fates of a top-level form.  Called from outside the byte code, its run comes out with the form's value,
  halts at an instruction it cannot execute, or goes on for ever; which of the three is what the form means.
 */
module Fates {

  import opened Options
  import opened Varuint
  import opened Instructions
  import opened Machine
  import opened Icode
  import opened Meaning
  import opened Correct
  import opened Hoisting
  import opened Staying

  // Runs

  /** The run leaves the byte code. */
  ghost predicate ComesOut(im: Image, s: State) {
    exists t :: Reaches(im, s, t) && t.pc >= |im.code|
  }

  ghost predicate Forever(im: Image, s: State) {
    forall n: nat :: Lasts(im, s, n)
  }

  lemma NothingOutside(im: Image, s: State)
    requires s.pc >= |im.code|
    ensures Step(im, s).None?
  {
    hide Exec, Shape, ReadOperands, Build;
  }

  /** A run has one end at most. */
  lemma OneEnd(im: Image, s: State, t: State, u: State)
    requires Reaches(im, s, t) && Step(im, t).None? && Reaches(im, s, u) && Step(im, u).None?
    ensures t == u
  {
    hide Step;
    var m: nat :| Run(im, s, m) == Some(t);
    var n: nat :| Run(im, s, n) == Some(u);
    if m < n {
      RunAdd(im, s, m, t, n - m);
      assert false;
    } else if n < m {
      RunAdd(im, s, n, u, m - n);
      assert false;
    }
  }

  /** And one that has an end does not go on for ever. */
  lemma EndsNotForever(im: Image, s: State, t: State)
    requires Reaches(im, s, t) && Step(im, t).None?
    ensures !Forever(im, s)
  {
    hide Step;
    var m: nat :| Run(im, s, m) == Some(t);
    RunAdd(im, s, m, t, 1);
    assert !Lasts(im, s, m + 1);
  }

  /** No run has two of the three fates. */
  lemma OneFate(im: Image, s: State)
    ensures !(ComesOut(im, s) && Halts(im, s)) && !(ComesOut(im, s) && Forever(im, s)) && !(Halts(im, s) && Forever(im, s))
  {
    hide Reaches, Step, Lasts, Forever;
    if ComesOut(im, s) {
      var t :| Reaches(im, s, t) && t.pc >= |im.code|;
      NothingOutside(im, t);
      EndsNotForever(im, s, t);
      if Halts(im, s) {
        var u :| Reaches(im, s, u) && u.pc < |im.code| && Step(im, u).None?;
        OneEnd(im, s, t, u);
      }
    } else if Halts(im, s) {
      var u :| Reaches(im, s, u) && u.pc < |im.code| && Step(im, u).None?;
      EndsNotForever(im, s, u);
    }
  }

  // Forms

  /** The form's code is next, its return address is outside the byte code, and all functions at hand are the program's. */
  ghost predicate Called(P: Program, im: Image, m: Icode, n: nat, s: State) {
    && Linked(P, im, s.store.values) && Sized(m, im.consts) && TailOK(m, false) && Returnable(true, s)
    && At(im.code, s.pc, Blocks(m, im.consts, n) + TopCode(m, im.consts, n))
    && s.stack.top.pc >= |im.code|
  }

  ghost predicate Confined(P: Program, im: Image, m: Icode, n: nat, s: State) {
    var Q := WithForm(P, m, im.consts, n, s.pc);
    && Settled(Q) && Stays(Q, m) && OwnScope(Q, ScopeOf(s.stack))
    && OwnStore(Q, WithFunctions(s.store, m, im.consts, n, s.pc, s.frame))
  }

  /** The form's meaning, with fuel enough. */
  ghost predicate HasValue(P: Program, im: Image, m: Icode, n: nat, s: State) {
    exists fuel: nat :: FormValue(m, P, im, n, s, fuel).Done?
  }

  ghost predicate HasFault(P: Program, im: Image, m: Icode, n: nat, s: State) {
    exists fuel: nat :: FormValue(m, P, im, n, s, fuel) == Stuck(Fault)
  }

  /** A form that stays in its program has a value, faults, or calls ever deeper. */
  lemma NeverForeign(P: Program, im: Image, m: Icode, n: nat, s: State, fuel: nat)
    requires Confined(P, im, m, n, s)
    ensures FormValue(m, P, im, n, s, fuel) != Stuck(Foreign)
  {
    hide Eval, Settled, Stays, OwnScope, OwnStore, WithForm, WithFunctions, ScopeOf;
    EvalStays(WithForm(P, m, im.consts, n, s.pc), m, NoFrame, ScopeOf(s.stack), WithFunctions(s.store, m, im.consts, n, s.pc, s.frame), fuel);
  }

  lemma ValueComesOut(P: Program, im: Image, m: Icode, n: nat, s: State)
    requires Called(P, im, m, n, s) && HasValue(P, im, m, n, s)
    ensures ComesOut(im, s)
  {
    hide FormValue, Linked, Sized, TailOK, At, Blocks, TopCode, Reaches, Fails;
    var fuel: nat :| FormValue(m, P, im, n, s, fuel).Done?;
    var t := RunsTop(P, im, m, n, s, fuel);
  }

  lemma FaultHalts(P: Program, im: Image, m: Icode, n: nat, s: State)
    requires Called(P, im, m, n, s) && HasFault(P, im, m, n, s)
    ensures Halts(im, s)
  {
    hide FormValue, Linked, Sized, TailOK, At, Blocks, TopCode, Reaches, Halts;
    var fuel: nat :| FormValue(m, P, im, n, s, fuel) == Stuck(Fault);
    var t := RunsTop(P, im, m, n, s, fuel);
  }

  lemma DeepLasts(P: Program, im: Image, m: Icode, n: nat, s: State)
    requires Called(P, im, m, n, s) && Confined(P, im, m, n, s) && !HasValue(P, im, m, n, s) && !HasFault(P, im, m, n, s)
    ensures Forever(im, s)
  {
    hide FormValue, Linked, Sized, TailOK, At, Blocks, TopCode, Reaches, Confined, Lasts;
    forall fuel: nat
      ensures Lasts(im, s, fuel)
    {
      NeverForeign(P, im, m, n, s, fuel);
      var t := RunsTop(P, im, m, n, s, fuel);
    }
  }

  /**
    What becomes of a form's run is exactly what the form means: it comes out if and only if the form has a value,
    halts if and only if the form faults, and goes on for ever if and only if there is neither.
   */
  lemma FormFate(P: Program, im: Image, m: Icode, n: nat, s: State)
    requires Called(P, im, m, n, s) && Confined(P, im, m, n, s)
    ensures ComesOut(im, s) <==> HasValue(P, im, m, n, s)
    ensures Halts(im, s) <==> HasFault(P, im, m, n, s)
    ensures Forever(im, s) <==> !HasValue(P, im, m, n, s) && !HasFault(P, im, m, n, s)
  {
    hide *;
    OneFate(im, s);
    if HasValue(P, im, m, n, s) {
      ValueComesOut(P, im, m, n, s);
    }
    if HasFault(P, im, m, n, s) {
      FaultHalts(P, im, m, n, s);
    }
    if !HasValue(P, im, m, n, s) && !HasFault(P, im, m, n, s) {
      DeepLasts(P, im, m, n, s);
    }
  }

  /** Whatever comes out is the form's value, and everything at hand is still the program's own. */
  lemma OnlyValueComesOut(P: Program, im: Image, m: Icode, n: nat, s: State, t: State) returns (fuel: nat)
    requires Called(P, im, m, n, s) && Confined(P, im, m, n, s) && Reaches(im, s, t) && t.pc >= |im.code|
    ensures FormValue(m, P, im, n, s, fuel) == Done(t.val, t.store) && t.pc == s.stack.top.pc && t.stack == s.stack.rest
    ensures OwnStore(WithForm(P, m, im.consts, n, s.pc), t.store)
  {
    hide Eval, Linked, Sized, TailOK, At, Blocks, TopCode, Reaches, Settled, Stays, OwnScope, OwnStore, WithForm, WithFunctions, ScopeOf, Step, Fails;
    assert ComesOut(im, s);
    FormFate(P, im, m, n, s);
    fuel :| FormValue(m, P, im, n, s, fuel).Done?;
    var u := RunsTop(P, im, m, n, s, fuel);
    NothingOutside(im, t);
    NothingOutside(im, u);
    OneEnd(im, s, t, u);
    EvalStays(WithForm(P, m, im.consts, n, s.pc), m, NoFrame, ScopeOf(s.stack), WithFunctions(s.store, m, im.consts, n, s.pc, s.frame), fuel);
  }
}
