/** Runs of `transform` and `untransform` calls, and the duration invariant they
    keep as long as no call asks for "no form". */
module FormSequences {
  import opened TransforTypes
  import opened StateMachine
  import opened ExitProperties
  import opened EntryProperties

  /** One call: `transform(pow, which)` with its two draws, or `untransform()`. */
  datatype Op = Enter(which: Form, pow: int, r1: int, r2: int) | Leave

  /** A call as the game can make it: the draws are values `random2(pow)` can
      return, and the target is an actual form request (not "no form"). */
  predicate Admissible(op: Op) {
    op.Enter? ==> op.which != None && RandomDraw(op.pow, op.r1) && RandomDraw(op.pow, op.r2)
  }

  function Step(s: State, op: Op, maxHp: Form -> int): (t: State)
    requires WellFormed(s)
    ensures WellFormed(t)
  {
    match op
    case Enter(which, _, r1, r2) => TransformSpec(s, which, r1, r2, maxHp).1
    case Leave => UntransformSpec(s, maxHp)
  }

  function Run(s: State, ops: seq<Op>, maxHp: Form -> int): (t: State)
    requires WellFormed(s)
    ensures WellFormed(t)
    decreases |ops|
  {
    if ops == [] then s else Run(Step(s, ops[0], maxHp), ops[1..], maxHp)
  }

  /** A form is in effect exactly when a duration is running, and the duration
      never exceeds the longest cap, Air's 150 turns. */
  predicate DurationConsistent(s: State) {
    && (s.form == None <==> s.durTransformation == 0)
    && 0 <= s.durTransformation <= 150
  }

  /** One admissible call keeps the duration consistent. */
  lemma StepKeepsConsistent(s: State, op: Op, maxHp: Form -> int)
    requires WellFormed(s) && DurationConsistent(s) && Admissible(op)
    ensures DurationConsistent(Step(s, op, maxHp))
  {
    match op {
      case Leave =>
        UntransformRests(s, maxHp);
      case Enter(which, pow, r1, r2) =>
        var res := TransformSpec(s, which, r1, r2, maxHp);
        if s.form == which {
          if !(s.species == Merfolk && s.swimming && which != Dragon) {
            ExtensionOnly(s, which, r1, r2, maxHp);
          }
        } else if res.0 {
          EntryDuration(s, which, pow, r1, r2, maxHp);
        } else {
          RefusalOutcomes(s, which, r1, r2, maxHp);
          if s.form != None {
            UntransformRests(s, maxHp);
          }
        }
    }
  }

  /** Every run of admissible calls from a consistent state ends consistent. */
  lemma {:induction false} RunKeepsConsistent(s: State, ops: seq<Op>, maxHp: Form -> int)
    requires WellFormed(s) && DurationConsistent(s)
    requires forall i :: 0 <= i < |ops| ==> Admissible(ops[i])
    ensures DurationConsistent(Run(s, ops, maxHp))
    decreases |ops|
  {
    if ops != [] {
      StepKeepsConsistent(s, ops[0], maxHp);
      RunKeepsConsistent(Step(s, ops[0], maxHp), ops[1..], maxHp);
    }
  }

  /** Without the restriction on "no form" the invariant fails: asking for no form
      while in the natural form starts a duration with no form in effect. */
  lemma NoneRequestBreaksConsistency(s: State, maxHp: Form -> int)
    requires WellFormed(s) && s.form == None && s.durTransformation == 0
    requires !(s.species == Merfolk && s.swimming)
    ensures DurationConsistent(s)
    ensures !DurationConsistent(Step(s, Enter(None, 2, 1, 0), maxHp))
  {
    NoneTargetExtends(s, 1, 0, maxHp);
  }
}
