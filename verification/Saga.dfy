/** The saga coordinator of src/server/SagaCoordinator.h as a transition system over atomic database commits.
    Any number of sagas run interleaved, each driven by at most one executor; the process may crash between any
    two commits. T is the type of the business tables, P of the saga payload. */
module Saga {
  import opened Options

  datatype StepResult<+T, +P> = StepOk(tables: T, payload: P) | StepFailed(payload: P)

  /** A step sees the tables inside its transaction, the payload, and what the environment decides. */
  type StepFn<!T, !P> = (T, P, nat) -> StepResult<T, P>
  datatype Step<!T, !P> = Step(forward: StepFn<T, P>, compensate: Option<StepFn<T, P>>)
  type Definitions<!T, !P> = map<string, seq<Step<T, P>>>

  datatype State = Running | Compensating | Done | Failed
  datatype LogRow<P> = LogRow(sagaType: string, state: State, currentStep: nat, payload: P)

  /** An executor's memory, lost in a crash. Undoing(i): compensation i is next, -1 when all are through. */
  datatype Phase = Forward | Failing | Undoing(next: int)
  datatype Context<P> = Context(sagaType: string, step: nat, payload: P, phase: Phase)

  /** Every commit that touched the business tables or created a saga, oldest first. */
  datatype Commit<P> =
    | Began(sid: int, sagaType: string, start: P)
    | Applied(sid: int, step: nat, choice: nat)
    | Undone(sid: int, step: nat, choice: nat, payload: P)

  datatype World<T, P> = World(tables: T, log: map<int, LogRow<P>>, running: map<int, Context<P>>, history: seq<Commit<P>>)

  /** Why a step did not commit: no connection or transaction, the step said no, or the commit was refused. */
  datatype Fault = NoConnection | StepRefused(choice: nat) | CommitRefused(choice: nat)

  datatype Event<P> =
    | Start(sid: int, sagaType: string, payload: P)
    | Load(sid: int)
    | CommitStep(sid: int, choice: nat)
    | FailStep(sid: int, fault: Fault)
    | Finish(sid: int, marked: bool)
    | MarkCompensating(sid: int, marked: bool)
    | CommitUndo(sid: int, choice: nat)
    | SkipUndo(sid: int, fault: Fault)
    | Close(sid: int, marked: bool)
    | Crash

  // ----- one atomic step -----

  predicate Active<T, P>(defs: Definitions<T, P>, w: World<T, P>, sid: int) {
    sid in w.running && sid in w.log && w.running[sid].sagaType in defs
  }

  function StepsOf<T, P>(defs: Definitions<T, P>, w: World<T, P>, sid: int): seq<Step<T, P>>
    requires Active(defs, w, sid)
  {
    defs[w.running[sid].sagaType]
  }

  /** The payload in memory after a failed attempt. */
  function AfterFault<T, P>(f: StepFn<T, P>, t: T, p: P, fault: Fault): P {
    match fault
    case NoConnection => p
    case StepRefused(c) => f(t, p, c).payload
    case CommitRefused(c) => f(t, p, c).payload
  }

  predicate FaultFits<T, P>(f: StepFn<T, P>, t: T, p: P, fault: Fault) {
    match fault
    case NoConnection => true
    case StepRefused(c) => f(t, p, c).StepFailed?
    case CommitRefused(c) => f(t, p, c).StepOk?
  }

  /** The UPDATE of the progress row counts as done only if it changes the row. */
  ghost predicate Changes<P>(row: LogRow<P>, step: nat, payload: P) {
    row.currentStep != step || row.payload != payload
  }

  ghost predicate Enabled<T, P>(defs: Definitions<T, P>, w: World<T, P>, e: Event<P>) {
    match e
    case Start(sid, sagaType, _) => sid !in w.log && sid !in w.running && sagaType in defs
    case Load(sid) => sid in w.log && sid !in w.running && w.log[sid].sagaType in defs
    case CommitStep(sid, c) =>
      && Active(defs, w, sid) && var ctx := w.running[sid]; var steps := StepsOf(defs, w, sid);
      && ctx.phase == Forward && ctx.step < |steps|
      && var r := steps[ctx.step].forward(w.tables, ctx.payload, c); r.StepOk? && Changes(w.log[sid], ctx.step + 1, r.payload)
    case FailStep(sid, fault) =>
      && Active(defs, w, sid) && var ctx := w.running[sid]; var steps := StepsOf(defs, w, sid);
      && ctx.phase == Forward && ctx.step < |steps| && FaultFits(steps[ctx.step].forward, w.tables, ctx.payload, fault)
    case Finish(sid, _) =>
      Active(defs, w, sid) && w.running[sid].phase == Forward && w.running[sid].step >= |StepsOf(defs, w, sid)|
    case MarkCompensating(sid, _) =>
      Active(defs, w, sid) && w.running[sid].phase == Failing
    case CommitUndo(sid, c) =>
      && Active(defs, w, sid) && var ctx := w.running[sid]; var steps := StepsOf(defs, w, sid);
      && ctx.phase.Undoing? && 0 <= ctx.phase.next < |steps| && steps[ctx.phase.next].compensate.Some?
      && steps[ctx.phase.next].compensate.value(w.tables, ctx.payload, c).StepOk?
    case SkipUndo(sid, fault) =>
      && Active(defs, w, sid) && var ctx := w.running[sid]; var steps := StepsOf(defs, w, sid);
      && ctx.phase.Undoing? && 0 <= ctx.phase.next < |steps|
      && var undo := steps[ctx.phase.next].compensate;
      (if undo.None? then fault == NoConnection else FaultFits(undo.value, w.tables, ctx.payload, fault))
    case Close(sid, _) =>
      Active(defs, w, sid) && w.running[sid].phase.Undoing? && w.running[sid].phase.next < 0
    case Crash => true
  }

  function Mark<P>(log: map<int, LogRow<P>>, sid: int, state: State, marked: bool): map<int, LogRow<P>>
    requires sid in log
  {
    if marked then log[sid := log[sid].(state := state)] else log
  }

  ghost function Next<T, P>(defs: Definitions<T, P>, w: World<T, P>, e: Event<P>): World<T, P>
    requires Enabled(defs, w, e)
  {
    match e
    case Start(sid, sagaType, p) =>
      w.(log := w.log[sid := LogRow(sagaType, Running, 0, p)], history := w.history + [Began(sid, sagaType, p)])
    case Load(sid) =>
      var row := w.log[sid];
      w.(running := w.running[sid := Context(row.sagaType, row.currentStep, row.payload, Forward)])
    case CommitStep(sid, c) =>
      var ctx := w.running[sid];
      var r := StepsOf(defs, w, sid)[ctx.step].forward(w.tables, ctx.payload, c);
      World(r.tables,
            w.log[sid := w.log[sid].(currentStep := ctx.step + 1, payload := r.payload)],
            w.running[sid := ctx.(step := ctx.step + 1, payload := r.payload)],
            w.history + [Applied(sid, ctx.step, c)])
    case FailStep(sid, fault) =>
      var ctx := w.running[sid];
      var p := AfterFault(StepsOf(defs, w, sid)[ctx.step].forward, w.tables, ctx.payload, fault);
      w.(running := w.running[sid := ctx.(payload := p, phase := Failing)])
    case Finish(sid, marked) =>
      w.(log := Mark(w.log, sid, Done, marked), running := w.running - {sid})
    case MarkCompensating(sid, marked) =>
      var ctx := w.running[sid];
      w.(log := Mark(w.log, sid, Compensating, marked),
         running := w.running[sid := ctx.(phase := Undoing(ctx.step - 1))])
    case CommitUndo(sid, c) =>
      var ctx := w.running[sid];
      var i := ctx.phase.next;
      var r := StepsOf(defs, w, sid)[i].compensate.value(w.tables, ctx.payload, c);
      w.(tables := r.tables,
         running := w.running[sid := ctx.(payload := r.payload, phase := Undoing(i - 1))],
         history := w.history + [Undone(sid, i, c, ctx.payload)])
    case SkipUndo(sid, fault) =>
      var ctx := w.running[sid];
      var undo := StepsOf(defs, w, sid)[ctx.phase.next].compensate;
      var p := if undo.None? then ctx.payload else AfterFault(undo.value, w.tables, ctx.payload, fault);
      w.(running := w.running[sid := ctx.(payload := p, phase := Undoing(ctx.phase.next - 1))])
    case Close(sid, marked) =>
      w.(log := Mark(w.log, sid, Failed, marked), running := w.running - {sid})
    case Crash => w.(running := map[])
  }

  // ----- whole runs -----

  ghost function Fresh<T, P>(t0: T): World<T, P> {
    World(t0, map[], map[], [])
  }

  /** The events take world w to w'. */
  ghost predicate Leads<T, P>(defs: Definitions<T, P>, w: World<T, P>, es: seq<Event<P>>, w': World<T, P>)
    decreases |es|
  {
    if es == [] then w == w'
    else Enabled(defs, w, es[0]) && Leads(defs, Next(defs, w, es[0]), es[1..], w')
  }

  lemma {:induction false} LeadsThrough<T, P>(defs: Definitions<T, P>, w: World<T, P>, es: seq<Event<P>>, w': World<T, P>,
                                              fs: seq<Event<P>>, w'': World<T, P>)
    requires Leads(defs, w, es, w') && Leads(defs, w', fs, w'')
    ensures Leads(defs, w, es + fs, w'')
    decreases |es|
  {
    if es == [] {
      assert es + fs == fs;
    } else {
      assert (es + fs)[1..] == es[1..] + fs;
      LeadsThrough(defs, Next(defs, w, es[0]), es[1..], w', fs, w'');
    }
  }

  // ----- what the commits add up to -----

  datatype Instance<P> = Instance(sagaType: string, payload: P)
  datatype Replayed<T, P> = Replayed(tables: T, sagas: map<int, Instance<P>>)

  /** Running the committed steps again, one after the other, from the initial tables;
      None if one of them would not go through the second time. */
  ghost function Replay<T, P>(defs: Definitions<T, P>, t0: T, history: seq<Commit<P>>): Option<Replayed<T, P>> {
    if history == [] then Some(Replayed(t0, map[]))
    else
      match Replay(defs, t0, history[..|history| - 1])
      case None => None
      case Some(r) => Redo(defs, r, history[|history| - 1])
  }

  ghost function Redo<T, P>(defs: Definitions<T, P>, r: Replayed<T, P>, c: Commit<P>): Option<Replayed<T, P>> {
    match c
    case Began(sid, sagaType, p) => Some(r.(sagas := r.sagas[sid := Instance(sagaType, p)]))
    case Applied(sid, i, choice) =>
      if sid in r.sagas && r.sagas[sid].sagaType in defs && i < |defs[r.sagas[sid].sagaType]| then
        var s := r.sagas[sid];
        var x := defs[s.sagaType][i].forward(r.tables, s.payload, choice);
        if x.StepOk? then Some(Replayed(x.tables, r.sagas[sid := s.(payload := x.payload)])) else None
      else None
    case Undone(sid, i, choice, p) =>
      if sid in r.sagas && r.sagas[sid].sagaType in defs && i < |defs[r.sagas[sid].sagaType]|
         && defs[r.sagas[sid].sagaType][i].compensate.Some? then
        var x := defs[r.sagas[sid].sagaType][i].compensate.value(r.tables, p, choice);
        if x.StepOk? then Some(r.(tables := x.tables)) else None
      else None
  }

  /** What one saga committed going forward, in commit order. */
  ghost function Trail<P>(history: seq<Commit<P>>, sid: int): seq<Commit<P>> {
    if history == [] then []
    else
      var front, c := Trail(history[..|history| - 1], sid), history[|history| - 1];
      if c.sid == sid && !c.Undone? then front + [c] else front
  }

  /** Begun once, then steps 0, 1, ..., k-1, each exactly once and in order. */
  ghost predicate InOrder<P>(trail: seq<Commit<P>>, sagaType: string, k: nat) {
    && |trail| == k + 1
    && trail[0].Began? && trail[0].sagaType == sagaType
    && forall i :: 1 <= i <= k ==> trail[i].Applied? && trail[i].step == i - 1
  }

  // ----- the invariant -----

  ghost predicate SagaOk<T, P>(defs: Definitions<T, P>, t0: T, w: World<T, P>, sid: int)
    requires sid in w.log && Replay(defs, t0, w.history).Some?
  {
    var row, r := w.log[sid], Replay(defs, t0, w.history).value;
    && row.sagaType in defs
    && row.currentStep <= |defs[row.sagaType]|
    && sid in r.sagas && r.sagas[sid] == Instance(row.sagaType, row.payload)
    && InOrder(Trail(w.history, sid), row.sagaType, row.currentStep)
    && (row.state == Done ==> row.currentStep == |defs[row.sagaType]|)
  }

  ghost predicate ContextOk<T, P>(defs: Definitions<T, P>, w: World<T, P>, sid: int)
    requires sid in w.running
  {
    && sid in w.log
    && var ctx, row := w.running[sid], w.log[sid];
    && ctx.sagaType == row.sagaType
    && ctx.step == row.currentStep
    && (ctx.phase == Forward ==> ctx.payload == row.payload)
    && (ctx.phase != Forward ==> ctx.sagaType in defs && ctx.step < |defs[ctx.sagaType]|)
    && (ctx.phase.Undoing? ==> -1 <= ctx.phase.next < ctx.step)
  }

  ghost predicate Inv<T, P>(defs: Definitions<T, P>, t0: T, w: World<T, P>) {
    && Replay(defs, t0, w.history).Some?
    && Replay(defs, t0, w.history).value.tables == w.tables
    && (forall sid {:trigger SagaOk(defs, t0, w, sid)} :: sid in w.log ==> SagaOk(defs, t0, w, sid))
    && (forall sid {:trigger Trail(w.history, sid)} :: sid !in w.log ==> Trail(w.history, sid) == [])
    && (forall sid {:trigger ContextOk(defs, w, sid)} :: sid in w.running ==> ContextOk(defs, w, sid))
  }

  lemma Snoc<T, P>(defs: Definitions<T, P>, t0: T, history: seq<Commit<P>>, c: Commit<P>)
    ensures Replay(defs, t0, history).Some? ==>
              Replay(defs, t0, history + [c]) == Redo(defs, Replay(defs, t0, history).value, c)
    ensures Replay(defs, t0, history).None? ==> Replay(defs, t0, history + [c]).None?
    ensures forall sid :: Trail(history + [c], sid)
                       == Trail(history, sid) + if c.sid == sid && !c.Undone? then [c] else []
  {
    assert (history + [c])[..|history|] == history;
  }

  lemma OtherSagaOk<T, P>(defs: Definitions<T, P>, t0: T, w: World<T, P>, w': World<T, P>, c: Commit<P>, sid: int)
    requires Replay(defs, t0, w.history).Some? && Replay(defs, t0, w'.history).Some?
    requires sid in w.log && sid in w'.log && w'.log[sid] == w.log[sid] && SagaOk(defs, t0, w, sid)
    requires w'.history == w.history + [c] && (c.sid != sid || c.Undone?)
    ensures SagaOk(defs, t0, w', sid)
  {
    Snoc(defs, t0, w.history, c);
  }

  lemma StartKeepsInv<T, P>(defs: Definitions<T, P>, t0: T, w: World<T, P>, e: Event<P>)
    requires Inv(defs, t0, w) && e.Start? && Enabled(defs, w, e)
    ensures Inv(defs, t0, Next(defs, w, e))
  {
    var w' := Next(defs, w, e);
    var c := Began(e.sid, e.sagaType, e.payload);
    Snoc(defs, t0, w.history, c);
    forall sid | sid in w'.log ensures SagaOk(defs, t0, w', sid) {
      if sid != e.sid { OtherSagaOk(defs, t0, w, w', c, sid); }
    }
    forall sid | sid in w'.running ensures ContextOk(defs, w', sid) {
      assert ContextOk(defs, w, sid);
    }
  }

  lemma CommitStepKeepsInv<T, P>(defs: Definitions<T, P>, t0: T, w: World<T, P>, e: Event<P>)
    requires Inv(defs, t0, w) && e.CommitStep? && Enabled(defs, w, e)
    ensures Inv(defs, t0, Next(defs, w, e))
  {
    var w' := Next(defs, w, e);
    var c := Applied(e.sid, w.running[e.sid].step, e.choice);
    Snoc(defs, t0, w.history, c);
    assert ContextOk(defs, w, e.sid) && SagaOk(defs, t0, w, e.sid);
    forall sid | sid in w'.log ensures SagaOk(defs, t0, w', sid) {
      if sid != e.sid { OtherSagaOk(defs, t0, w, w', c, sid); }
    }
    forall sid | sid in w'.running ensures ContextOk(defs, w', sid) {
      assert ContextOk(defs, w, sid);
    }
  }

  lemma CommitUndoKeepsInv<T, P>(defs: Definitions<T, P>, t0: T, w: World<T, P>, e: Event<P>)
    requires Inv(defs, t0, w) && e.CommitUndo? && Enabled(defs, w, e)
    ensures Inv(defs, t0, Next(defs, w, e))
  {
    var w' := Next(defs, w, e);
    var ctx := w.running[e.sid];
    var c := Undone(e.sid, ctx.phase.next, e.choice, ctx.payload);
    Snoc(defs, t0, w.history, c);
    assert ContextOk(defs, w, e.sid) && SagaOk(defs, t0, w, e.sid);
    forall sid | sid in w'.log ensures SagaOk(defs, t0, w', sid) {
      OtherSagaOk(defs, t0, w, w', c, sid);
    }
    forall sid | sid in w'.running ensures ContextOk(defs, w', sid) {
      assert ContextOk(defs, w, sid);
    }
  }

  lemma MarkKeepsInv<T, P>(defs: Definitions<T, P>, t0: T, w: World<T, P>, e: Event<P>)
    requires Inv(defs, t0, w) && Enabled(defs, w, e)
    requires e.Finish? || e.MarkCompensating? || e.Close?
    ensures Inv(defs, t0, Next(defs, w, e))
  {
    var w' := Next(defs, w, e);
    assert ContextOk(defs, w, e.sid) && SagaOk(defs, t0, w, e.sid);
    forall sid | sid in w'.log ensures SagaOk(defs, t0, w', sid) {
      assert SagaOk(defs, t0, w, sid);
    }
    forall sid | sid in w'.running ensures ContextOk(defs, w', sid) {
      assert ContextOk(defs, w, sid);
    }
  }

  lemma MemoryKeepsInv<T, P>(defs: Definitions<T, P>, t0: T, w: World<T, P>, e: Event<P>)
    requires Inv(defs, t0, w) && Enabled(defs, w, e)
    requires e.Load? || e.FailStep? || e.SkipUndo? || e.Crash?
    ensures Inv(defs, t0, Next(defs, w, e))
  {
    var w' := Next(defs, w, e);
    forall sid | sid in w'.log ensures SagaOk(defs, t0, w', sid) {
      assert SagaOk(defs, t0, w, sid);
    }
    forall sid | sid in w'.running ensures ContextOk(defs, w', sid) {
      assert sid in w.running ==> ContextOk(defs, w, sid);
      assert SagaOk(defs, t0, w, sid);
    }
  }

  /** Every atomic step keeps the invariant, whatever fails and whoever else is running. */
  lemma NextKeepsInv<T, P>(defs: Definitions<T, P>, t0: T, w: World<T, P>, e: Event<P>)
    requires Inv(defs, t0, w) && Enabled(defs, w, e)
    ensures Inv(defs, t0, Next(defs, w, e))
  {
    match e
    case Start(_, _, _) => StartKeepsInv(defs, t0, w, e);
    case CommitStep(_, _) => CommitStepKeepsInv(defs, t0, w, e);
    case CommitUndo(_, _) => CommitUndoKeepsInv(defs, t0, w, e);
    case Finish(_, _) => MarkKeepsInv(defs, t0, w, e);
    case MarkCompensating(_, _) => MarkKeepsInv(defs, t0, w, e);
    case Close(_, _) => MarkKeepsInv(defs, t0, w, e);
    case _ => MemoryKeepsInv(defs, t0, w, e);
  }

  lemma {:induction false} RunKeepsInv<T, P>(defs: Definitions<T, P>, t0: T, w: World<T, P>, es: seq<Event<P>>, w': World<T, P>)
    requires Inv(defs, t0, w) && Leads(defs, w, es, w')
    ensures Inv(defs, t0, w')
    decreases |es|
  {
    if es != [] {
      NextKeepsInv(defs, t0, w, es[0]);
      RunKeepsInv(defs, t0, Next(defs, w, es[0]), es[1..], w');
    }
  }

  /** Whatever crashed or failed: forward steps were committed exactly once and in order, as many as saga_log says,
      the tables are what the commits add up to, and done means that no step is missing. */
  lemma ForwardExactlyOnce<T, P>(defs: Definitions<T, P>, t0: T, es: seq<Event<P>>, w: World<T, P>, sid: int)
    requires Leads(defs, Fresh(t0), es, w) && sid in w.log
    ensures w.log[sid].sagaType in defs
    ensures InOrder(Trail(w.history, sid), w.log[sid].sagaType, w.log[sid].currentStep)
    ensures Replay(defs, t0, w.history).Some? && w.tables == Replay(defs, t0, w.history).value.tables
    ensures w.log[sid].state == Done ==> w.log[sid].currentStep == |defs[w.log[sid].sagaType]|
  {
    RunKeepsInv(defs, t0, Fresh(t0), es, w);
    assert SagaOk(defs, t0, w, sid);
  }

  // ----- a saga on its own: forward steps from its start state -----

  /** Steps i, i+1, ... applied to (t, p), one per choice; None as soon as one of them refuses. */
  ghost function RunForward<T, P>(steps: seq<Step<T, P>>, i: nat, t: T, p: P, choices: seq<nat>): Option<(T, P)>
    requires i + |choices| <= |steps|
  {
    if choices == [] then Some((t, p))
    else
      var n := |choices| - 1;
      match RunForward(steps, i, t, p, choices[..n])
      case None => None
      case Some((t', p')) =>
        match steps[i + n].forward(t', p', choices[n])
        case StepFailed(_) => None
        case StepOk(t'', p'') => Some((t'', p''))
  }

  lemma RunForwardSnoc<T, P>(steps: seq<Step<T, P>>, i: nat, t: T, p: P, choices: seq<nat>, c: nat, t': T, p': P, t'': T, p'': P)
    requires i + |choices| < |steps| && RunForward(steps, i, t, p, choices) == Some((t', p'))
    requires steps[i + |choices|].forward(t', p', c) == StepOk(t'', p'')
    ensures RunForward(steps, i, t, p, choices + [c]) == Some((t'', p''))
  {
    assert (choices + [c])[..|choices|] == choices;
  }

  ghost function Choices<P>(applied: seq<Commit<P>>): seq<nat>
    requires forall c :: c in applied ==> c.Applied?
  {
    seq<nat>(|applied|, i requires 0 <= i < |applied| => assert applied[i] in applied; applied[i].choice)
  }

  /** Commits that end with those of one saga, in order and not undone: these are its first steps, run from the tables
      that the earlier commits left. */
  lemma {:induction false} ReplayIsRunForward<T, P>(defs: Definitions<T, P>, t0: T, pre: seq<Commit<P>>, own: seq<Commit<P>>,
                                                    sid: int, sagaType: string, k: nat)
    requires sagaType in defs && k <= |defs[sagaType]| && InOrder(own, sagaType, k)
    requires forall c :: c in own ==> c.sid == sid
    requires Replay(defs, t0, pre + own).Some?
    ensures var r := Replay(defs, t0, pre + own).value;
            && Replay(defs, t0, pre).Some?
            && sid in r.sagas && r.sagas[sid].sagaType == sagaType
            && RunForward(defs[sagaType], 0, Replay(defs, t0, pre).value.tables, own[0].start, Choices(own[1..])) ==
               Some((r.tables, r.sagas[sid].payload))
    decreases k
  {
    var front := own[..k];
    assert pre + own == (pre + front) + [own[k]];
    Snoc(defs, t0, pre + front, own[k]);
    if k == 0 {
      assert pre + front == pre;
    } else {
      ReplayIsRunForward(defs, t0, pre, front, sid, sagaType, k - 1);
      assert Choices(own[1..])[..k - 1] == Choices(front[1..]);
    }
  }

  lemma {:induction false} TrailOfOwn<P>(pre: seq<Commit<P>>, own: seq<Commit<P>>, sid: int)
    requires forall c :: c in pre ==> c.sid != sid
    requires forall c :: c in own ==> c.sid == sid && !c.Undone?
    ensures Trail(pre + own, sid) == own
    decreases |pre| + |own|
  {
    if own != [] {
      var n := |own| - 1;
      assert (pre + own)[..|pre| + n] == pre + own[..n];
      TrailOfOwn(pre, own[..n], sid);
    } else if pre != [] {
      assert pre + own == pre;
      var n := |pre| - 1;
      assert pre[..n] + own == pre[..n];
      TrailOfOwn(pre[..n], own, sid);
    }
  }

  /** A saga that has not been compensated and that no other saga's commit interrupts: after any crashes and resumes, the
      tables are those it started from after exactly its first current_step forward steps. */
  lemma TablesAreFirstSteps<T, P>(defs: Definitions<T, P>, t0: T, es: seq<Event<P>>, w: World<T, P>, sid: int,
                                  pre: seq<Commit<P>>, own: seq<Commit<P>>)
    requires Leads(defs, Fresh(t0), es, w) && sid in w.log && w.history == pre + own
    requires (forall c :: c in pre ==> c.sid != sid) && forall c :: c in own ==> c.sid == sid && !c.Undone?
    ensures var row := w.log[sid];
            && Replay(defs, t0, pre).Some?
            && row.sagaType in defs && row.currentStep <= |defs[row.sagaType]|
            && |own| == row.currentStep + 1 && own[0].Began?
            && (forall c :: c in own[1..] ==> c.Applied?)
            && RunForward(defs[row.sagaType], 0, Replay(defs, t0, pre).value.tables, own[0].start, Choices(own[1..])) ==
               Some((w.tables, row.payload))
  {
    RunKeepsInv(defs, t0, Fresh(t0), es, w);
    assert SagaOk(defs, t0, w, sid);
    TrailOfOwn(pre, own, sid);
    ReplayIsRunForward(defs, t0, pre, own, sid, w.log[sid].sagaType, w.log[sid].currentStep);
  }

  // ----- compensated or not -----

  ghost predicate HasUndo<P>(history: seq<Commit<P>>, sid: int) {
    exists k :: 0 <= k < |history| && history[k].Undone? && history[k].sid == sid
  }

  lemma HasUndoSnoc<P>(history: seq<Commit<P>>, c: Commit<P>, sid: int)
    ensures HasUndo(history + [c], sid) <==> HasUndo(history, sid) || (c.Undone? && c.sid == sid)
  {
    if HasUndo(history, sid) {
      var k :| 0 <= k < |history| && history[k].Undone? && history[k].sid == sid;
      assert (history + [c])[k] == history[k];
    }
    if c.Undone? && c.sid == sid {
      assert (history + [c])[|history|] == c;
    }
  }

  /** A step undoes something of the saga exactly if it is a committed compensation of it. */
  lemma UndoneBy<T, P>(defs: Definitions<T, P>, w: World<T, P>, e: Event<P>, sid: int)
    requires Enabled(defs, w, e)
    ensures HasUndo(Next(defs, w, e).history, sid) <==> HasUndo(w.history, sid) || (e.CommitUndo? && e.sid == sid)
  {
    var w' := Next(defs, w, e);
    if w'.history != w.history {
      var c := w'.history[|w.history|];
      assert w'.history == w.history + [c];
      HasUndoSnoc(w.history, c, sid);
    }
  }

  // ----- compensation -----

  /** Compensations k-1, k-2, ..., 0, one choice each, payload handed on; None if one is missing or refuses. */
  ghost function RollBack<T, P>(steps: seq<Step<T, P>>, t: T, q: P, choices: seq<nat>): Option<T>
    requires |choices| <= |steps|
  {
    if choices == [] then Some(t)
    else
      var k := |choices| - 1;
      if steps[k].compensate.None? then None
      else match steps[k].compensate.value(t, q, choices[k])
           case StepFailed(_) => None
           case StepOk(t', q') => RollBack(steps, t', q', choices[..k])
  }

  /** Compensation i takes any tables that look like the outcome of step i back to what the step started from,
      as long as the payload still carries what the step recorded. */
  ghost predicate Undoes<T, P>(steps: seq<Step<T, P>>, i: nat, same: (T, T) -> bool, keeps: (nat, P, P) -> bool,
                               t: T, p: P, c: nat, s: T, q: P, c': nat)
    requires i < |steps|
  {
    steps[i].compensate.Some? ==>
      var f, u := steps[i].forward(t, p, c), steps[i].compensate.value(s, q, c');
      f.StepOk? && u.StepOk? && same(s, f.tables) && keeps(i, f.payload, q) ==> same(u.tables, t)
  }

  /** Step j, forward or compensating, does not lose what step i recorded in the payload. */
  ghost predicate Carries<T, P>(steps: seq<Step<T, P>>, i: nat, j: nat, keeps: (nat, P, P) -> bool, p: P, t: T, q: P, c: nat)
    requires j < |steps|
  {
    keeps(i, p, q) ==>
      && keeps(i, p, steps[j].forward(t, q, c).payload)
      && (steps[j].compensate.Some? ==> keeps(i, p, steps[j].compensate.value(t, q, c).payload))
  }

  ghost predicate Reversible<T(!new), P(!new)>(steps: seq<Step<T, P>>, same: (T, T) -> bool, keeps: (nat, P, P) -> bool) {
    && (forall t :: same(t, t))
    && (forall i, p :: keeps(i, p, p))
    && (forall i: nat, t, p, c, s, q, c' :: i < |steps| ==> Undoes(steps, i, same, keeps, t, p, c, s, q, c'))
    && (forall i: nat, j: nat, p, t, q, c :: i < j < |steps| ==> Carries(steps, i, j, keeps, p, t, q, c))
  }

  /** The payload q still carries what applied step i recorded. */
  ghost predicate Kept<T, P>(steps: seq<Step<T, P>>, keeps: (nat, P, P) -> bool, t: T, p: P, choices: seq<nat>, q: P, i: nat)
    requires i < |choices| <= |steps|
  {
    var r := RunForward(steps, 0, t, p, choices[..i + 1]);
    r.Some? && keeps(i, r.value.1, q)
  }

  ghost predicate AllKept<T, P>(steps: seq<Step<T, P>>, keeps: (nat, P, P) -> bool, t: T, p: P, choices: seq<nat>, q: P)
    requires |choices| <= |steps|
  {
    forall i: nat :: i < |choices| ==> Kept(steps, keeps, t, p, choices, q, i)
  }

  /** Running or undoing one more step keeps what is kept. */
  lemma StillKept<T(!new), P(!new)>(steps: seq<Step<T, P>>, same: (T, T) -> bool, keeps: (nat, P, P) -> bool,
                                    t: T, p: P, choices: seq<nat>, q: P, j: nat, s: T, c: nat)
    requires Reversible(steps, same, keeps) && |choices| <= j < |steps| && AllKept(steps, keeps, t, p, choices, q)
    ensures AllKept(steps, keeps, t, p, choices, steps[j].forward(s, q, c).payload)
    ensures steps[j].compensate.Some? ==> AllKept(steps, keeps, t, p, choices, steps[j].compensate.value(s, q, c).payload)
  {
    forall i: nat | i < |choices|
      ensures Kept(steps, keeps, t, p, choices, steps[j].forward(s, q, c).payload, i)
      ensures steps[j].compensate.Some? ==> Kept(steps, keeps, t, p, choices, steps[j].compensate.value(s, q, c).payload, i)
    {
      assert Kept(steps, keeps, t, p, choices, q, i);
      assert Carries(steps, i, j, keeps, RunForward(steps, 0, t, p, choices[..i + 1]).value.1, s, q, c);
    }
  }

  lemma AllKeptFront<T, P>(steps: seq<Step<T, P>>, keeps: (nat, P, P) -> bool, t: T, p: P, choices: seq<nat>, n: nat, q: P)
    requires n <= |choices| <= |steps|
    ensures AllKept(steps, keeps, t, p, choices, q) ==> AllKept(steps, keeps, t, p, choices[..n], q)
    ensures |choices| == n + 1 && AllKept(steps, keeps, t, p, choices[..n], q) && Kept(steps, keeps, t, p, choices, q, n)
            ==> AllKept(steps, keeps, t, p, choices, q)
  {
    forall i: nat | i < n
      ensures Kept(steps, keeps, t, p, choices, q, i) <==> Kept(steps, keeps, t, p, choices[..n], q, i)
    {
      assert choices[..n][..i + 1] == choices[..i + 1];
    }
  }

  lemma {:induction false} ForwardKeepsAll<T(!new), P(!new)>(steps: seq<Step<T, P>>, same: (T, T) -> bool, keeps: (nat, P, P) -> bool,
                                                             t: T, p: P, choices: seq<nat>)
    requires Reversible(steps, same, keeps) && |choices| <= |steps| && RunForward(steps, 0, t, p, choices).Some?
    ensures AllKept(steps, keeps, t, p, choices, RunForward(steps, 0, t, p, choices).value.1)
  {
    if choices != [] {
      var n := |choices| - 1;
      var (t', p') := RunForward(steps, 0, t, p, choices[..n]).value;
      ForwardKeepsAll(steps, same, keeps, t, p, choices[..n]);
      StillKept(steps, same, keeps, t, p, choices[..n], p', n, t', choices[n]);
      assert choices[..n + 1] == choices;
      AllKeptFront(steps, keeps, t, p, choices, n, RunForward(steps, 0, t, p, choices).value.1);
    }
  }

  /** Undoing the applied steps in reverse order gives back tables that look like the start. */
  lemma {:induction false} RollBackRestores<T(!new), P(!new)>(steps: seq<Step<T, P>>, same: (T, T) -> bool, keeps: (nat, P, P) -> bool,
                                                              t: T, p: P, choices: seq<nat>, s: T, q: P, undo: seq<nat>)
    requires Reversible(steps, same, keeps) && |choices| == |undo| <= |steps|
    requires RunForward(steps, 0, t, p, choices).Some? && same(s, RunForward(steps, 0, t, p, choices).value.0)
    requires AllKept(steps, keeps, t, p, choices, q)
    requires RollBack(steps, s, q, undo).Some?
    ensures same(RollBack(steps, s, q, undo).value, t)
    decreases |choices|
  {
    if choices != [] {
      var n := |choices| - 1;
      var (t', p') := RunForward(steps, 0, t, p, choices[..n]).value;
      var u := steps[n].compensate.value(s, q, undo[n]);
      assert choices[..n + 1] == choices;
      assert Kept(steps, keeps, t, p, choices, q, n);
      assert Undoes(steps, n, same, keeps, t', p', choices[n], s, q, undo[n]);
      AllKeptFront(steps, keeps, t, p, choices, n, q);
      StillKept(steps, same, keeps, t, p, choices[..n], q, n, s, undo[n]);
      RollBackRestores(steps, same, keeps, t, p, choices[..n], u.tables, u.payload, undo[..n]);
    }
  }

  /** Step k fails, whichever way, and compensations k-1 down to 0 all go through: the start state is back. */
  lemma FailedSagaRestores<T(!new), P(!new)>(steps: seq<Step<T, P>>, same: (T, T) -> bool, keeps: (nat, P, P) -> bool,
                                             t: T, p: P, choices: seq<nat>, fault: Fault, undo: seq<nat>)
    requires Reversible(steps, same, keeps) && |choices| == |undo| < |steps|
    requires RunForward(steps, 0, t, p, choices).Some?
    requires var (tk, pk) := RunForward(steps, 0, t, p, choices).value;
             RollBack(steps, tk, AfterFault(steps[|choices|].forward, tk, pk, fault), undo).Some?
    ensures var (tk, pk) := RunForward(steps, 0, t, p, choices).value;
            same(RollBack(steps, tk, AfterFault(steps[|choices|].forward, tk, pk, fault), undo).value, t)
  {
    var (tk, pk) := RunForward(steps, 0, t, p, choices).value;
    var q := AfterFault(steps[|choices|].forward, tk, pk, fault);
    ForwardKeepsAll(steps, same, keeps, t, p, choices);
    StillKept(steps, same, keeps, t, p, choices, pk, |choices|, tk, if fault.NoConnection? then 0 else fault.choice);
    RollBackRestores(steps, same, keeps, t, p, choices, tk, q, undo);
  }
}
