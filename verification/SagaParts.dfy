/** Interleaved sagas: to itself each of them looks as if it had run alone. */
module SagaParts {
  import opened Options
  import opened Saga

  /** like(lone, t, p): for a saga with payload p the tables t look like the tables lone of a run on its own. */
  type Likeness<!T, !P> = (T, T, P) -> bool

  /** Whatever a step does in tables that look alike, it can do in the others, leaving the same payload and tables alike. */
  ghost predicate Follows<T(!new), P(!new)>(steps: seq<Step<T, P>>, like: Likeness<T, P>) {
    forall i: nat, lone, t, p, c :: i < |steps| && like(lone, t, p) && steps[i].forward(t, p, c).StepOk? ==> CanFollow(steps[i], like, lone, t, p, c)
  }

  ghost predicate CanFollow<T, P>(step: Step<T, P>, like: Likeness<T, P>, lone: T, t: T, p: P, c: nat) {
    exists c' :: FollowsBy(step, like, lone, t, p, c, c')
  }

  ghost predicate FollowsBy<T, P>(step: Step<T, P>, like: Likeness<T, P>, lone: T, t: T, p: P, c: nat, c': nat) {
    var r, r' := step.forward(t, p, c), step.forward(lone, p, c');
    r.StepOk? && r'.StepOk? && r'.payload == r.payload && like(r'.tables, r.tables, r.payload)
  }

  /** The step of another saga does not change how the tables look to this one. */
  ghost predicate LeavesAlike<T(!new), P>(defs: Definitions<T, P>, w: World<T, P>, e: Event<P>, sid: int, like: Likeness<T, P>)
    requires Enabled(defs, w, e) && sid in w.log
  {
    forall lone :: like(lone, w.tables, w.log[sid].payload) ==> like(lone, Next(defs, w, e).tables, w.log[sid].payload)
  }

  /** One step of a run in which the saga is not compensated and the others leave its tables alike. */
  ghost predicate Considerate<T(!new), P>(defs: Definitions<T, P>, w: World<T, P>, e: Event<P>, sid: int, like: Likeness<T, P>)
    requires Enabled(defs, w, e) && sid in w.log
  {
    && !(e.CommitUndo? && e.sid == sid)
    && ((e.CommitStep? || e.CommitUndo?) && e.sid != sid ==> LeavesAlike(defs, w, e, sid, like))
  }

  ghost predicate ConsiderateRun<T(!new), P>(defs: Definitions<T, P>, w: World<T, P>, es: seq<Event<P>>, w': World<T, P>, sid: int, like: Likeness<T, P>)
    decreases |es|
  {
    if es == [] then w == w'
    else
      && Enabled(defs, w, es[0]) && sid in w.log && Considerate(defs, w, es[0], sid, like)
      && ConsiderateRun(defs, Next(defs, w, es[0]), es[1..], w', sid, like)
  }

  /** Running alone from (t, p), with these choices, the saga would have got as far, with the same payload, and its tables
      look like the present ones. */
  ghost predicate AsIfAlone<T, P>(defs: Definitions<T, P>, w: World<T, P>, sid: int, like: Likeness<T, P>, t: T, p: P, choices: seq<nat>) {
    && sid in w.log && w.log[sid].sagaType in defs && |choices| == w.log[sid].currentStep <= |defs[w.log[sid].sagaType]|
    && match RunForward(defs[w.log[sid].sagaType], 0, t, p, choices)
       case None => false
       case Some((lone, q)) => q == w.log[sid].payload && like(lone, w.tables, q)
  }

  /** A step that is no commit of a step or compensation leaves tables and progress alone. */
  lemma OtherEvents<T, P>(defs: Definitions<T, P>, w: World<T, P>, e: Event<P>, sid: int)
    requires Enabled(defs, w, e) && sid in w.log && !(e.CommitStep? && e.sid == sid)
    ensures var w' := Next(defs, w, e);
            && sid in w'.log && w'.log[sid].sagaType == w.log[sid].sagaType
            && w'.log[sid].currentStep == w.log[sid].currentStep && w'.log[sid].payload == w.log[sid].payload
            && (!e.CommitStep? && !e.CommitUndo? ==> w'.tables == w.tables)
  {
  }

  lemma OwnStep<T(!new), P(!new)>(defs: Definitions<T, P>, t0: T, w: World<T, P>, e: Event<P>, sid: int, like: Likeness<T, P>,
                                  t: T, p: P, choices: seq<nat>) returns (choices': seq<nat>)
    requires Inv(defs, t0, w) && AsIfAlone(defs, w, sid, like, t, p, choices) && Follows(defs[w.log[sid].sagaType], like)
    requires e.CommitStep? && e.sid == sid && Enabled(defs, w, e)
    ensures AsIfAlone(defs, Next(defs, w, e), sid, like, t, p, choices')
  {
    assert ContextOk(defs, w, sid);
    var steps, k := defs[w.log[sid].sagaType], w.log[sid].currentStep;
    var (lone, q) := RunForward(steps, 0, t, p, choices).value;
    assert CanFollow(steps[k], like, lone, w.tables, q, e.choice);
    var c' :| FollowsBy(steps[k], like, lone, w.tables, q, e.choice, c');
    choices' := choices + [c'];
    assert choices'[..k] == choices;
  }

  lemma AloneStep<T(!new), P(!new)>(defs: Definitions<T, P>, t0: T, w: World<T, P>, e: Event<P>, sid: int, like: Likeness<T, P>,
                                    t: T, p: P, choices: seq<nat>) returns (choices': seq<nat>)
    requires Inv(defs, t0, w) && AsIfAlone(defs, w, sid, like, t, p, choices) && Follows(defs[w.log[sid].sagaType], like)
    requires Enabled(defs, w, e) && Considerate(defs, w, e, sid, like)
    ensures AsIfAlone(defs, Next(defs, w, e), sid, like, t, p, choices')
  {
    if e.CommitStep? && e.sid == sid {
      choices' := OwnStep(defs, t0, w, e, sid, like, t, p, choices);
    } else {
      OtherEvents(defs, w, e, sid);
      choices' := choices;
      if e.CommitStep? || e.CommitUndo? {
        assert LeavesAlike(defs, w, e, sid, like);
      }
    }
  }

  /** Every considerate run keeps a saga as if it were alone. */
  lemma {:induction false} AloneRun<T(!new), P(!new)>(defs: Definitions<T, P>, t0: T, w: World<T, P>, es: seq<Event<P>>, w': World<T, P>, sid: int,
                                                   like: Likeness<T, P>, t: T, p: P, choices: seq<nat>) returns (choices': seq<nat>)
    requires Inv(defs, t0, w) && AsIfAlone(defs, w, sid, like, t, p, choices) && Follows(defs[w.log[sid].sagaType], like)
    requires ConsiderateRun(defs, w, es, w', sid, like)
    ensures AsIfAlone(defs, w', sid, like, t, p, choices')
    decreases |es|
  {
    if es == [] {
      choices' := choices;
    } else {
      var next := AloneStep(defs, t0, w, es[0], sid, like, t, p, choices);
      NextKeepsInv(defs, t0, w, es[0]);
      assert Next(defs, w, es[0]).log[sid].sagaType == w.log[sid].sagaType;
      choices' := AloneRun(defs, t0, Next(defs, w, es[0]), es[1..], w', sid, like, t, p, next);
    }
  }

  /**
   * After any history, a saga begins; then come any steps of it and of others, crashes and resumes, in which it is not
   * compensated and the others leave its tables alike. For some choices its first current_step steps, run alone from the
   * tables at its beginning, give its payload and tables that look like the present ones.
   */
  lemma InterleavedFirstSteps<T(!new), P(!new)>(defs: Definitions<T, P>, t0: T, before: seq<Event<P>>, w0: World<T, P>, sid: int, sagaType: string, p: P,
                                                es: seq<Event<P>>, w: World<T, P>, like: Likeness<T, P>) returns (choices: seq<nat>)
    requires Leads(defs, Fresh(t0), before, w0) && Enabled(defs, w0, Event.Start(sid, sagaType, p))
    requires Follows(defs[sagaType], like) && like(w0.tables, w0.tables, p)
    requires ConsiderateRun(defs, Next(defs, w0, Event.Start(sid, sagaType, p)), es, w, sid, like)
    ensures AsIfAlone(defs, w, sid, like, w0.tables, p, choices)
  {
    var e := Event.Start(sid, sagaType, p);
    RunKeepsInv(defs, t0, Fresh(t0), before, w0);
    NextKeepsInv(defs, t0, w0, e);
    assert AsIfAlone(defs, Next(defs, w0, e), sid, like, w0.tables, p, []);
    choices := AloneRun(defs, t0, Next(defs, w0, e), es, w, sid, like, w0.tables, p, []);
  }
}
