/** How loop creations fail: what aborts one, and that the setup node asks for nothing more on its behalf. */
module SetupFailure {
  import opened Base
  import opened IdReservoir
  import opened SetupRun
  import opened SetupProgress

  /** The steps that end a creation without a loop. */
  ghost predicate Fails(s: State, e: Step, a: nat)
    requires a < |s.attempts|
  {
    var x := s.attempts[a];
    match e
    case GiveUp(b) => b == a
    case Join(b) => b == a && x.refused != {}
    // A counter that wrapped asked for too few identifiers.
    case Compile(b) => b == a && x.ld.forward != [] && x.ld.reverse != []
                       && exists pk :: Uses(LoopPops(x.ld), pk) > 255
    case _ => false
  }

  lemma CompileAborts(s: State, a: nat)
    requires Enabled(s, Compile(a)) && s.attempts[a].ld.forward != [] && s.attempts[a].ld.reverse != []
    ensures Apply(s, Compile(a)).attempts[a].phase == Aborted <==> Fails(s, Compile(a), a)
  {
    hide Generate, Uses, LoopPops, IdsOf, Attempt.Asked;
    CompiledIff(s.attempts[a]);
  }

  lemma OtherAborts(s: State, e: Step, a: nat)
    requires Enabled(s, e) && a < |s.attempts| && s.attempts[a].phase != Aborted && e != Compile(a)
    ensures a < |Apply(s, e).attempts|
    ensures Apply(s, e).attempts[a].phase == Aborted <==> Fails(s, e, a)
  {
    hide Generate, Uses, LoopPops, JoinsEnds, IdsOf, Attempt.Asked, Attempt.Rules, Attempt.Done;
    if e.Start? || e.a != a {
      OthersUnchanged(s, e, a);
    }
  }

  lemma StepAborts(s: State, e: Step, a: nat)
    requires Inv(s) && Enabled(s, e) && a < |s.attempts| && s.attempts[a].phase != Aborted
    ensures a < |Apply(s, e).attempts|
    ensures Apply(s, e).attempts[a].phase == Aborted <==> Fails(s, e, a)
  {
    hide Enabled, Apply, Fails, Generate, Complete, Attempt.Rules, Attempt.Done;
    AttemptFine(s, a);
    hide Inv;
    if e == Compile(a) {
      CompileAborts(s, a);
      OthersStay(s, e, a);
    } else {
      OtherAborts(s, e, a);
    }
  }

  lemma OthersStay(s: State, e: Step, a: nat)
    requires Enabled(s, e) && a < |s.attempts|
    ensures a < |Apply(s, e).attempts|
  {
    hide Generate, Uses, LoopPops, JoinsEnds, IdsOf, Attempt.Asked, Attempt.Rules, Attempt.Done;
  }

  /** A creation is aborted exactly by giving it up, by a refused list, and by a visor needed more than 255 times. */
  lemma AbortsIff(states: seq<State>, steps: seq<Step>, i: nat, a: nat)
    requires Run(states, steps) && states[0] == INITIAL && i < |steps| && a < |states[i].attempts|
    requires states[i].attempts[a].phase != Aborted
    ensures a < |states[i + 1].attempts|
    ensures states[i + 1].attempts[a].phase == Aborted <==> Fails(states[i], steps[i], a)
  {
    InitialInv();
    RunInv(states, steps, i);
    assert Enabled(states[i], steps[i]);
    hide Inv, Enabled, Apply, Fails;
    StepAborts(states[i], steps[i], a);
  }

  /** What a failure leaves as it is: the compiled lists, what was refused, and which ends are asked to confirm. */
  predicate Frozen(x: Attempt, y: Attempt) {
    && y.phase == Aborted && y.code == x.code && y.refused == x.refused
    && y.dst.asked == x.dst.asked && y.src.asked == x.src.asked
  }

  lemma StepFreezes(s: State, e: Step, a: nat)
    requires Enabled(s, e) && a < |s.attempts| && s.attempts[a].phase == Aborted
    ensures a < |Apply(s, e).attempts| && Frozen(s.attempts[a], Apply(s, e).attempts[a])
  {
    hide Generate, Uses, LoopPops, IdsOf, Attempt.Asked, Attempt.Rules, Attempt.Done;
    if e.Start? || e.a != a {
      OthersUnchanged(s, e, a);
    }
  }

  /** An aborted creation stays aborted, and neither end is asked to confirm it any more. */
  lemma {:induction false} AbortedForGood(states: seq<State>, steps: seq<Step>, i: nat, j: nat, a: nat)
    requires Run(states, steps) && i <= j < |states| && a < |states[i].attempts|
    requires states[i].attempts[a].phase == Aborted
    ensures a < |states[j].attempts| && Frozen(states[i].attempts[a], states[j].attempts[a])
  {
    hide Enabled, Apply;
    if i < j {
      AbortedForGood(states, steps, i, j - 1, a);
      assert Enabled(states[j - 1], steps[j - 1]);
      StepFreezes(states[j - 1], steps[j - 1], a);
    }
  }

  lemma StepKeepsRefused(s: State, e: Step, a: nat)
    requires Enabled(s, e) && a < |s.attempts|
    ensures a < |Apply(s, e).attempts| && s.attempts[a].refused <= Apply(s, e).attempts[a].refused
  {
    hide Generate, Uses, LoopPops, IdsOf, Attempt.Asked, Attempt.Rules, Attempt.Done;
    if e.Start? || e.a != a {
      OthersUnchanged(s, e, a);
    }
  }

  lemma {:induction false} RefusedStays(states: seq<State>, steps: seq<Step>, i: nat, j: nat, a: nat)
    requires Run(states, steps) && i <= j < |states| && a < |states[i].attempts|
    ensures a < |states[j].attempts| && states[i].attempts[a].refused <= states[j].attempts[a].refused
  {
    hide Enabled, Apply;
    if i < j {
      RefusedStays(states, steps, i, j - 1, a);
      assert Enabled(states[j - 1], steps[j - 1]);
      StepKeepsRefused(states[j - 1], steps[j - 1], a);
    }
  }

  lemma JustRefused(s: State, e: Step)
    requires Enabled(s, e) && e.Refuse?
    ensures e.a < |Apply(s, e).attempts| && e.pk in Apply(s, e).attempts[e.a].refused
  {
  }

  /** One refused list is the end of a creation: in no later state is either end asked to confirm the loop. */
  lemma RefusalIsFinal(states: seq<State>, steps: seq<Step>, i: nat, j: nat)
    requires Run(states, steps) && states[0] == INITIAL && i < j < |states| && steps[i].Refuse?
    ensures steps[i].a < |states[j].attempts|
    ensures var x := states[j].attempts[steps[i].a];
            steps[i].pk in x.refused && x.phase in {Installing, Aborted} && !x.dst.asked && !x.src.asked
  {
    var a := steps[i].a;
    assert Enabled(states[i], steps[i]);
    InitialInv();
    RunInv(states, steps, i);
    RunInv(states, steps, j);
    hide Apply, Ordered;
    JustRefused(states[i], steps[i]);
    RefusedStays(states, steps, i + 1, j, a);
    RunAdvances(states, steps, i, j, a);
    AttemptFine(states[i], a);
    AttemptFine(states[j], a);
    hide Inv;
    InstallingIsCompiled(states[i].attempts[a]);
    RefusedNotAsked(states[j].attempts[a]);
  }

  lemma InstallingIsCompiled(x: Attempt)
    requires Ordered(x) && x.phase == Installing
    ensures x.code.Some?
  {
    hide Generate, JoinsEnds, Complete, Attempt.Rules, Attempt.Done;
  }

  lemma RefusedNotAsked(x: Attempt)
    requires Ordered(x) && x.refused != {} && x.code.Some?
    ensures x.phase in {Installing, Aborted} && !x.dst.asked && !x.src.asked
  {
    hide Generate, JoinsEnds, Complete, Attempt.Rules, Attempt.Done;
  }
}
