/** When a finished saga has something undone: exactly if it was resumed after a committed compensation. */
module SagaResume {
  import opened Options
  import opened Saga
  import opened SagaExecution

  // ----- the exact condition -----

  ghost predicate UndoIn<P(!new)>(es: seq<Event<P>>, sid: int) {
    exists j :: 0 <= j < |es| && es[j].CommitUndo? && es[j].sid == sid
  }

  ghost predicate StepIn<P(!new)>(es: seq<Event<P>>, sid: int) {
    exists j :: 0 <= j < |es| && es[j].CommitStep? && es[j].sid == sid
  }

  /** The saga was loaded again after one of its compensations had committed. */
  ghost predicate Resumed<P(!new)>(es: seq<Event<P>>, sid: int) {
    exists j, k :: 0 <= j < k < |es| && es[j].CommitUndo? && es[j].sid == sid && es[k] == Load(sid)
  }

  lemma StepInSnoc<P(!new)>(es: seq<Event<P>>, e: Event<P>, sid: int)
    ensures StepIn(es + [e], sid) <==> StepIn(es, sid) || (e.CommitStep? && e.sid == sid)
  {
    var all := es + [e];
    assert forall j :: 0 <= j < |es| ==> all[j] == es[j];
    assert all[|es|] == e;
    if StepIn(es, sid) {
      var j :| 0 <= j < |es| && es[j].CommitStep? && es[j].sid == sid;
      assert all[j].CommitStep? && all[j].sid == sid;
    }
  }

  lemma ResumedSnoc<P(!new)>(es: seq<Event<P>>, e: Event<P>, sid: int)
    ensures UndoIn(es + [e], sid) <==> UndoIn(es, sid) || (e.CommitUndo? && e.sid == sid)
    ensures Resumed(es + [e], sid) <==> Resumed(es, sid) || (UndoIn(es, sid) && e == Load(sid))
  {
    var all := es + [e];
    assert forall j :: 0 <= j < |es| ==> all[j] == es[j];
    assert all[|es|] == e;
    if UndoIn(es, sid) {
      var j :| 0 <= j < |es| && es[j].CommitUndo? && es[j].sid == sid;
      assert all[j].CommitUndo? && all[j].sid == sid;
    }
    if Resumed(es, sid) {
      var j, k :| 0 <= j < k < |es| && es[j].CommitUndo? && es[j].sid == sid && es[k] == Load(sid);
      assert all[j].CommitUndo? && all[k] == Load(sid);
    }
  }

  lemma ResumedWasUndone<P(!new)>(es: seq<Event<P>>, sid: int)
    ensures Resumed(es, sid) ==> UndoIn(es, sid)
  {
  }

  /** Until it is resumed, a saga with something undone only goes on undoing, and is not done. */
  ghost predicate Told<T, P(!new)>(done: seq<Event<P>>, w: World<T, P>, sid: int) {
    && (sid in w.log && w.log[sid].currentStep > 0 <==> StepIn(done, sid))
    && (HasUndo(w.history, sid) <==> UndoIn(done, sid))
    && (HasUndo(w.history, sid) && !Resumed(done, sid) ==>
          && (sid in w.running ==> w.running[sid].phase.Undoing?)
          && (sid in w.log ==> w.log[sid].state != Done))
  }

  lemma StepKeepsTold<T, P(!new)>(defs: Definitions<T, P>, t0: T, done: seq<Event<P>>, w: World<T, P>, e: Event<P>, sid: int)
    requires Inv(defs, t0, w) && Told(done, w, sid) && Enabled(defs, w, e)
    ensures Told(done + [e], Next(defs, w, e), sid)
  {
    StepInSnoc(done, e, sid);
    ResumedSnoc(done, e, sid);
    UndoneBy(defs, w, e, sid);
    if e.CommitUndo? && e.sid == sid {
      assert ContextOk(defs, w, sid) && SagaOk(defs, t0, w, sid);
    }
  }

  lemma {:induction false} RunKeepsTold<T, P(!new)>(defs: Definitions<T, P>, t0: T, done: seq<Event<P>>, w: World<T, P>,
                                                    es: seq<Event<P>>, w': World<T, P>, sid: int)
    requires Inv(defs, t0, w) && Told(done, w, sid) && Leads(defs, w, es, w')
    ensures Told(done + es, w', sid)
    decreases |es|
  {
    if es == [] {
      assert done + es == done;
    } else {
      NextKeepsInv(defs, t0, w, es[0]);
      StepKeepsTold(defs, t0, done, w, es[0], sid);
      RunKeepsTold(defs, t0, done + [es[0]], Next(defs, w, es[0]), es[1..], w', sid);
      assert done + [es[0]] + es[1..] == done + es;
    }
  }

  /** The log and the history say what the events of the run were. */
  lemma EventsTell<T, P(!new)>(defs: Definitions<T, P>, t0: T, es: seq<Event<P>>, w: World<T, P>, sid: int)
    requires Leads(defs, Fresh(t0), es, w)
    ensures Told(es, w, sid)
  {
    RunKeepsTold(defs, t0, [], Fresh(t0), es, w, sid);
    assert [] + es == es;
  }

  /** A done saga has something undone if and only if it was loaded after a compensation had committed. */
  lemma DoneButUndoneIff<T, P(!new)>(defs: Definitions<T, P>, t0: T, es: seq<Event<P>>, w: World<T, P>, sid: int)
    requires Leads(defs, Fresh(t0), es, w) && sid in w.log && w.log[sid].state == Done
    ensures HasUndo(w.history, sid) <==> Resumed(es, sid)
  {
    EventsTell(defs, t0, es, w, sid);
    ResumedWasUndone(es, sid);
  }

  // ----- what a caller can check -----

  /** The mark reaches the log, and the saga is loaded only while its row says running. */
  predicate CarefulStep<T, P(==)>(w: World<T, P>, e: Event<P>, sid: int) {
    && (e.MarkCompensating? && e.sid == sid ==> e.marked)
    && (e == Load(sid) && sid in w.log ==> w.log[sid].state == Running)
  }

  /** A run in which every step is careful about the saga. */
  ghost predicate Careful<T, P>(defs: Definitions<T, P>, w: World<T, P>, es: seq<Event<P>>, w': World<T, P>, sid: int)
    decreases |es|
  {
    if es == [] then w == w'
    else Enabled(defs, w, es[0]) && CarefulStep(w, es[0], sid) && Careful(defs, Next(defs, w, es[0]), es[1..], w', sid)
  }

  /** A row that something was undone of no longer says running. */
  ghost predicate Marked<T, P>(w: World<T, P>, sid: int) {
    && (sid in w.running && w.running[sid].phase.Undoing? ==> sid in w.log && w.log[sid].state == Compensating)
    && (HasUndo(w.history, sid) ==>
          && sid in w.log && w.log[sid].state in {Compensating, Failed}
          && (sid in w.running ==> w.running[sid].phase.Undoing?))
  }

  lemma StepKeepsMarked<T, P(!new)>(defs: Definitions<T, P>, t0: T, w: World<T, P>, e: Event<P>, sid: int)
    requires Inv(defs, t0, w) && Marked(w, sid) && Enabled(defs, w, e) && CarefulStep(w, e, sid)
    ensures Marked(Next(defs, w, e), sid)
  {
    UndoneBy(defs, w, e, sid);
    if sid in w.running {
      assert ContextOk(defs, w, sid);
    }
  }

  lemma {:induction false} CarefulKeepsMarked<T, P(!new)>(defs: Definitions<T, P>, t0: T, w: World<T, P>, es: seq<Event<P>>,
                                                          w': World<T, P>, sid: int)
    requires Inv(defs, t0, w) && Marked(w, sid) && Careful(defs, w, es, w', sid)
    ensures Marked(w', sid) && Leads(defs, w, es, w')
    decreases |es|
  {
    if es != [] {
      NextKeepsInv(defs, t0, w, es[0]);
      StepKeepsMarked(defs, t0, w, es[0], sid);
      CarefulKeepsMarked(defs, t0, Next(defs, w, es[0]), es[1..], w', sid);
    }
  }

  /** In a careful run a done saga has nothing undone; if no other saga's commit interrupts it, the tables are those it
      started from after all of its steps. */
  lemma CarefulDoneIsComplete<T, P(!new)>(defs: Definitions<T, P>, t0: T, es: seq<Event<P>>, w: World<T, P>, sid: int,
                                          pre: seq<Commit<P>>, own: seq<Commit<P>>)
    requires Careful(defs, Fresh(t0), es, w, sid) && sid in w.log && w.log[sid].state == Done
    requires w.history == pre + own && (forall c :: c in pre ==> c.sid != sid) && forall c :: c in own ==> c.sid == sid
    ensures !HasUndo(w.history, sid) && w.log[sid].sagaType in defs
    ensures var steps := defs[w.log[sid].sagaType];
            && |own| == |steps| + 1 && own[0].Began? && (forall c :: c in own[1..] ==> c.Applied?)
            && Replay(defs, t0, pre).Some?
            && RunForward(steps, 0, Replay(defs, t0, pre).value.tables, own[0].start, Choices(own[1..])) ==
               Some((w.tables, w.log[sid].payload))
  {
    CarefulKeepsMarked(defs, t0, Fresh(t0), es, w, sid);
    forall c | c in own ensures !c.Undone? {
      var k :| 0 <= k < |own| && own[k] == c;
      assert w.history[|pre| + k] == c;
    }
    ForwardExactlyOnce(defs, t0, es, w, sid);
    TablesAreFirstSteps(defs, t0, es, w, sid, pre, own);
  }

  // ----- two executors -----

  /** One process commits step k of the saga; another one that loaded the same row then tries the same step. Its commit goes
      through if and only if the step does not refuse and leaves a payload that differs from the one now on record, since
      the step number in the UPDATE is already there. */
  lemma SecondCommitIff<T, P>(defs: Definitions<T, P>, w: World<T, P>, sid: int, c: nat, c': nat)
    requires Enabled(defs, w, CommitStep(sid, c))
    ensures var w' := Next(defs, w, CommitStep(sid, c));
            var other, ctx := w'.(running := w.running), w.running[sid];
            var r := defs[ctx.sagaType][ctx.step].forward(w'.tables, ctx.payload, c');
            && (Enabled(defs, other, CommitStep(sid, c')) <==> r.StepOk? && r.payload != w'.log[sid].payload)
            && (Enabled(defs, other, CommitStep(sid, c')) ==>
                  && Next(defs, other, CommitStep(sid, c')).history == w.history + [Applied(sid, ctx.step, c), Applied(sid, ctx.step, c')]
                  && Next(defs, other, CommitStep(sid, c')).tables == r.tables)
  {
    var w', ctx := Next(defs, w, CommitStep(sid, c)), w.running[sid];
    assert w'.log[sid].currentStep == ctx.step + 1;
    assert w.history + [Applied(sid, ctx.step, c)] + [Applied(sid, ctx.step, c')] == w.history + [Applied(sid, ctx.step, c), Applied(sid, ctx.step, c')];
  }

  // ----- a run that is not careful -----

  /** Two independent facts, one per step. */
  datatype Facts = Facts(first: bool, second: bool)

  function First(t: Facts, p: (), choice: nat): StepResult<Facts, ()> { StepOk(t.(first := true), p) }
  function Unfirst(t: Facts, p: (), choice: nat): StepResult<Facts, ()> { StepOk(t.(first := false), p) }
  function Second(t: Facts, p: (), choice: nat): StepResult<Facts, ()> {
    if choice == 0 then StepFailed(p) else StepOk(t.(second := true), p)
  }

  const STEPS: seq<Step<Facts, ()>> := [Step(First, Some(Unfirst)), Step(Second, None)]
  const DEFS: Definitions<Facts, ()> := map["two_steps" := STEPS]

  function Row(state: State, step: nat): LogRow<()> { LogRow("two_steps", state, step, ()) }
  function Ctx(step: nat, phase: Phase): Context<()> { Context("two_steps", step, (), phase) }

  /** Up to the failure of step 1: one step on record, one fact in the tables. */
  lemma UpToFailure() returns (es: seq<Event<()>>, w: World<Facts, ()>)
    ensures Leads(DEFS, Fresh(Facts(false, false)), es, w)
    ensures w == World(Facts(true, false), map[1 := Row(Running, 1)], map[1 := Ctx(1, Failing)],
                       [Began(1, "two_steps", ()), Applied(1, 0, 0)])
  {
    var w0: World<Facts, ()> := Fresh(Facts(false, false));
    es, w := [], w0;
    var e := Event.Start(1, "two_steps", ());
    LeadsSnoc(DEFS, w0, es, w, e);
    es, w := es + [e], Next(DEFS, w, e);
    e := Load(1);
    LeadsSnoc(DEFS, w0, es, w, e);
    es, w := es + [e], Next(DEFS, w, e);
    e := CommitStep(1, 0);
    LeadsSnoc(DEFS, w0, es, w, e);
    es, w := es + [e], Next(DEFS, w, e);
    e := FailStep(1, StepRefused(0));
    LeadsSnoc(DEFS, w0, es, w, e);
    es, w := es + [e], Next(DEFS, w, e);
  }

  /** The compensation commits, then the process dies before the saga is marked failed. */
  lemma UpToCrash() returns (es: seq<Event<()>>, w: World<Facts, ()>)
    ensures Leads(DEFS, Fresh(Facts(false, false)), es, w)
    ensures w == World(Facts(false, false), map[1 := Row(Compensating, 1)], map[],
                       [Began(1, "two_steps", ()), Applied(1, 0, 0), Undone(1, 0, 0, ())])
  {
    var w0: World<Facts, ()> := Fresh(Facts(false, false));
    es, w := UpToFailure();
    var e := MarkCompensating(1, true);
    LeadsSnoc(DEFS, w0, es, w, e);
    es, w := es + [e], Next(DEFS, w, e);
    e := CommitUndo(1, 0);
    LeadsSnoc(DEFS, w0, es, w, e);
    es, w := es + [e], Next(DEFS, w, e);
    e := Crash;
    LeadsSnoc(DEFS, w0, es, w, e);
    es, w := es + [e], Next(DEFS, w, e);
  }

  /** Resuming goes forward from step 1 again: done, although what step 0 did is gone. */
  lemma DoneWithoutItsFirstStep() returns (es: seq<Event<()>>, w: World<Facts, ()>)
    ensures Leads(DEFS, Fresh(Facts(false, false)), es, w)
    ensures w.log == map[1 := Row(Done, 2)] && w.tables == Facts(false, true)
  {
    var w0: World<Facts, ()> := Fresh(Facts(false, false));
    es, w := UpToCrash();
    var e := Load(1);
    LeadsSnoc(DEFS, w0, es, w, e);
    es, w := es + [e], Next(DEFS, w, e);
    e := CommitStep(1, 1);
    LeadsSnoc(DEFS, w0, es, w, e);
    es, w := es + [e], Next(DEFS, w, e);
    e := Finish(1, true);
    LeadsSnoc(DEFS, w0, es, w, e);
    es, w := es + [e], Next(DEFS, w, e);
  }
}
