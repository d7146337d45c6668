/** The coordinator's methods. What the database and the operating system decide is given as an environment, any
    environment; each method is proved to be a run of the transition system in module Saga, also when it crashes. */
module SagaExecution {
  import opened Options
  import opened Pigeonhole
  import opened Saga

  datatype Outcome = Crashed | Returned(ok: bool)

  lemma LeadsSnoc<T, P>(defs: Definitions<T, P>, w0: World<T, P>, es: seq<Event<P>>, w: World<T, P>, e: Event<P>)
    requires Leads(defs, w0, es, w) && Enabled(defs, w, e)
    ensures Leads(defs, w0, es + [e], Next(defs, w, e))
  {
    assert [e][1..] == [];
    assert Leads(defs, Next(defs, w, e), [], Next(defs, w, e));
    assert Leads(defs, w, [e], Next(defs, w, e));
    LeadsThrough(defs, w0, es, w, [e], Next(defs, w, e));
  }

  lemma LeadsOne<T, P>(defs: Definitions<T, P>, w: World<T, P>, e: Event<P>)
    requires Enabled(defs, w, e)
    ensures Leads(defs, w, [e], Next(defs, w, e))
  {
    LeadsSnoc(defs, w, [], w, e);
    assert [] + [e] == [e];
  }

  /** From here on, undoing the steps below i gives what undoing all of them gave from the failure on. */
  ghost predicate OnCourse<T, P>(steps: seq<Step<T, P>>, t0: T, q0: P, done: seq<nat>, i: nat, t: T, q: P)
    requires i + |done| <= |steps|
  {
    forall pre: seq<nat> :: |pre| == i ==> RollBack(steps, t0, q0, pre + done) == RollBack(steps, t, q, pre)
  }

  lemma OnCourseNext<T, P>(steps: seq<Step<T, P>>, t0: T, q0: P, done: seq<nat>, i: nat, t: T, q: P, c: nat)
    requires i + 1 + |done| <= |steps| && OnCourse(steps, t0, q0, done, i + 1, t, q)
    requires steps[i].compensate.Some? && steps[i].compensate.value(t, q, c).StepOk?
    ensures var r := steps[i].compensate.value(t, q, c);
            OnCourse(steps, t0, q0, [c] + done, i, r.tables, r.payload)
  {
    var r := steps[i].compensate.value(t, q, c);
    forall pre: seq<nat> | |pre| == i
      ensures RollBack(steps, t0, q0, pre + ([c] + done)) == RollBack(steps, r.tables, r.payload, pre)
    {
      assert pre + ([c] + done) == (pre + [c]) + done;
      assert (pre + [c])[..i] == pre;
    }
  }

  /** Before a transaction: does the process live, is there a connection, does BEGIN work; during it: what the step meets,
      do the progress update and the commit work. */
  datatype Luck = Luck(alive: bool, connected: bool, begun: bool, committed: bool, choice: nat)

  /** Before an update of the state column: does the process live, does the update arrive. */
  datatype Pen = Pen(alive: bool, marked: bool)

  datatype Env = Env(loaded: bool, forward: nat -> Luck, giveUp: Pen, undo: nat -> Luck, settle: Pen)

  predicate Goes<T, P>(f: StepFn<T, P>, t: T, p: P, luck: Luck) {
    luck.connected && luck.begun && luck.committed && f(t, p, luck.choice).StepOk?
  }

  /** A compensation does not look whether BEGIN worked: without a transaction its statements count at once. */
  predicate GoesBack<T, P>(f: StepFn<T, P>, t: T, p: P, luck: Luck) {
    luck.connected && (luck.begun ==> luck.committed) && f(t, p, luck.choice).StepOk?
  }

  /** The fault is what this compensation meets with this luck; that it fits the tables is part of being a run. */
  predicate Blames<T, P>(step: Step<T, P>, luck: Luck, fault: Fault) {
    match fault
    case NoConnection => step.compensate.None? || !luck.connected
    case StepRefused(c) => step.compensate.Some? && luck.connected && c == luck.choice
    case CommitRefused(c) => step.compensate.Some? && luck.connected && c == luck.choice && luck.begun && !luck.committed
  }

  predicate Skips<T, P>(e: Event<P>, sid: int, step: Step<T, P>, luck: Luck) {
    e.SkipUndo? && e.sid == sid && Blames(step, luck, e.fault)
  }

  /** Among the events, one of the saga's compensations below k was passed over. */
  ghost predicate PassedOver<T, P>(es: seq<Event<P>>, sid: int, steps: seq<Step<T, P>>, undo: nat -> Luck, k: nat)
    requires k <= |steps|
  {
    exists j: nat, i: nat :: j < |es| && i < k && Skips(es[j], sid, steps[i], undo(i))
  }

  lemma PassedOverStays<T, P>(es: seq<Event<P>>, fs: seq<Event<P>>, sid: int, steps: seq<Step<T, P>>, undo: nat -> Luck, k: nat)
    requires k <= |steps| && (PassedOver(es, sid, steps, undo, k) || PassedOver(fs, sid, steps, undo, k))
    ensures PassedOver(es + fs, sid, steps, undo, k)
  {
    if PassedOver(es, sid, steps, undo, k) {
      var j: nat, i: nat :| j < |es| && i < k && Skips(es[j], sid, steps[i], undo(i));
      assert Skips((es + fs)[j], sid, steps[i], undo(i));
    } else {
      var j: nat, i: nat :| j < |fs| && i < k && Skips(fs[j], sid, steps[i], undo(i));
      assert Skips((es + fs)[|es| + j], sid, steps[i], undo(i));
    }
  }

  lemma PassedOverNow<T, P>(e: Event<P>, sid: int, steps: seq<Step<T, P>>, undo: nat -> Luck, k: nat, i: nat)
    requires i < k <= |steps| && Skips(e, sid, steps[i], undo(i))
    ensures PassedOver([e], sid, steps, undo, k)
  {
    assert Skips([e][0], sid, steps[i], undo(i));
  }

  ghost predicate Immortal(env: Env) {
    env.giveUp.alive && env.settle.alive && forall i {:trigger env.forward(i)} {:trigger env.undo(i)} :: env.forward(i).alive && env.undo(i).alive
  }

  /** What one completed execute did to the tables and the log, from world w to world w'. */
  ghost predicate Ran<T(!new), P(!new)>(defs: Definitions<T, P>, sid: int, w: World<T, P>, w': World<T, P>, env: Env,
                                        ok: bool, choices: seq<nat>, fault: Fault, undo: Option<seq<nat>>, es: seq<Event<P>>)
    requires sid in w.log && sid in w'.log
  {
    var from, to := w.log[sid], w'.log[sid];
    && to.sagaType == from.sagaType && to.sagaType in defs
    && var steps := defs[to.sagaType];
    && from.currentStep + |choices| == to.currentStep <= |steps|
    && (ok <==> to.currentStep == |steps|)
    && (env.settle.marked ==> to.state == if ok then Done else Failed)
    && match RunForward(steps, from.currentStep, w.tables, from.payload, choices)
       case None => false
       case Some((t, p)) =>
         && to.payload == p
         && (ok ==> w'.tables == t)
         && (!ok ==> !Goes(steps[to.currentStep].forward, t, p, env.forward(to.currentStep)))
         && (!ok && undo.Some? ==>
               && |undo.value| == to.currentStep
               && RollBack(steps, t, AfterFault(steps[to.currentStep].forward, t, p, fault), undo.value) == Some(w'.tables))
         && (!ok && undo.None? ==> PassedOver(es, sid, steps, env.undo, to.currentStep))
  }

  /** From stage n to stage n + 1 saga ids[n] was executed, or could not be loaded and nothing happened. */
  ghost predicate Executed<T(!new), P(!new)>(defs: Definitions<T, P>, ids: seq<int>, envs: nat -> Env, stages: seq<World<T, P>>, n: nat)
    requires n < |ids| && n + 1 < |stages|
  {
    var sid, w, w' := ids[n], stages[n], stages[n + 1];
    && sid in w.log && sid in w'.log
    && if envs(n).loaded then exists ok, choices, fault, undo, es :: Ran(defs, sid, w, w', envs(n), ok, choices, fault, undo, es) && Leads(defs, w, es, w')
       else w' == w
  }

  /** An executed saga whose last mark arrived is done or failed. */
  ghost predicate Settled<P>(log: map<int, LogRow<P>>, sid: int, env: Env) {
    sid in log && (env.loaded && env.settle.marked ==> log[sid].state in {Done, Failed})
  }

  /** Only rows of the listed sagas differ. */
  ghost predicate Untouched<P>(log0: map<int, LogRow<P>>, log: map<int, LogRow<P>>, ids: seq<int>) {
    log.Keys == log0.Keys && forall sid :: sid in log && sid !in ids ==> log[sid] == log0[sid]
  }

  /** The first n sagas are settled, the rows of all others are as they were. */
  ghost predicate Recovered<P>(log0: map<int, LogRow<P>>, log: map<int, LogRow<P>>, ids: seq<int>, envs: nat -> Env, n: nat)
    requires n <= |ids|
  {
    Untouched(log0, log, ids[..n]) && forall m: nat :: m < n ==> Settled(log, ids[m], envs(m))
  }

  lemma RecoveredNext<P>(log0: map<int, LogRow<P>>, log: map<int, LogRow<P>>, log': map<int, LogRow<P>>, ids: seq<int>, envs: nat -> Env,
                         n: nat, crashed: bool)
    requires n < |ids| && NoDuplicates(ids) && Recovered(log0, log, ids, envs, n)
    requires ids[n] in log && ids[n] in log' && log' == log[ids[n] := log'[ids[n]]]
    requires !crashed ==> Settled(log', ids[n], envs(n))
    ensures !crashed ==> Recovered(log0, log', ids, envs, n + 1)
    ensures Untouched(log0, log', ids)
  {
    assert ids[..n + 1] == ids[..n] + [ids[n]];
    assert forall sid :: sid in ids[..n + 1] ==> sid in ids;
    forall m: nat | m < n ensures Settled(log', ids[m], envs(m)) {
      assert Settled(log, ids[m], envs(m)) && ids[m] != ids[n];
    }
  }

  lemma ExecutedNext<T(!new), P(!new)>(defs: Definitions<T, P>, ids: seq<int>, envs: nat -> Env, stages: seq<World<T, P>>, w: World<T, P>, n: nat,
                                       ok: bool, choices: seq<nat>, fault: Fault, undo: Option<seq<nat>>, es: seq<Event<P>>)
    requires n < |ids| && |stages| == n + 1 && ids[n] in stages[n].log && ids[n] in w.log
    requires if envs(n).loaded then Ran(defs, ids[n], stages[n], w, envs(n), ok, choices, fault, undo, es) && Leads(defs, stages[n], es, w)
             else w == stages[n]
    requires forall m: nat {:trigger Executed(defs, ids, envs, stages, m)} :: m < n ==> Executed(defs, ids, envs, stages, m)
    ensures forall m: nat {:trigger Executed(defs, ids, envs, stages + [w], m)} :: m <= n ==> Executed(defs, ids, envs, stages + [w], m)
    ensures Settled(w.log, ids[n], envs(n))
  {
    forall m: nat | m <= n ensures Executed(defs, ids, envs, stages + [w], m) {
      if m < n {
        assert Executed(defs, ids, envs, stages, m);
      }
    }
  }

  lemma {:induction false} RunForwardConcat<T, P>(steps: seq<Step<T, P>>, t: T, p: P, first: seq<nat>, more: seq<nat>)
    requires |first| + |more| <= |steps| && RunForward(steps, 0, t, p, first).Some?
    ensures var (t', p') := RunForward(steps, 0, t, p, first).value;
            RunForward(steps, 0, t, p, first + more) == RunForward(steps, |first|, t', p', more)
    decreases |more|
  {
    if more == [] {
      assert first + more == first;
    } else {
      var n := |more| - 1;
      assert (first + more)[..|first + more| - 1] == first + more[..n];
      RunForwardConcat(steps, t, p, first, more[..n]);
    }
  }

  /**
   * A saga whose first steps, perhaps in earlier executions, led from (t, p) to the present tables, now fails. If the
   * steps are reversible and every compensation commits, the tables look as before the saga, and it is marked failed.
   */
  lemma FailureLeavesNothing<T(!new), P(!new)>(defs: Definitions<T, P>, sid: int, w: World<T, P>, w': World<T, P>, env: Env,
                                               t: T, p: P, earlier: seq<nat>, choices: seq<nat>, fault: Fault, undo: seq<nat>,
                                               es: seq<Event<P>>, same: (T, T) -> bool, keeps: (nat, P, P) -> bool)
    requires sid in w.log && sid in w'.log && Ran(defs, sid, w, w', env, false, choices, fault, Some(undo), es)
    requires var steps := defs[w'.log[sid].sagaType];
             && Reversible(steps, same, keeps)
             && |earlier| == w.log[sid].currentStep && RunForward(steps, 0, t, p, earlier) == Some((w.tables, w.log[sid].payload))
    ensures same(w'.tables, t)
    ensures env.settle.marked ==> w'.log[sid].state == Failed
  {
    var steps := defs[w'.log[sid].sagaType];
    RunForwardConcat(steps, t, p, earlier, choices);
    FailedSagaRestores(steps, same, keeps, t, p, earlier + choices, fault, undo);
  }

  class SagaCoordinator<T(!new), P(!new)> {
    const defs: Definitions<T, P>
    var tables: T
    var log: map<int, LogRow<P>>
    ghost var running: map<int, Context<P>>
    ghost var history: seq<Commit<P>>
    ghost const start: T

    ghost function W(): World<T, P>
      reads this
    {
      World(tables, log, running, history)
    }

    ghost predicate Valid()
      reads this
    {
      Inv(defs, start, W())
    }

    constructor (defs: Definitions<T, P>, tables: T)
      ensures Valid() && this.defs == defs && W() == Fresh(tables) && start == tables
    {
      this.defs, this.tables, this.start := defs, tables, tables;
      log, running, history := map[], map[], [];
    }

    /** start: one saga_log row in state running, under an id never seen before; 0 stands for failure. */
    method Start(sagaType: string, payload: P, fresh_id: int, inserted: bool) returns (sid: int)
      requires Valid() && fresh_id != 0 && fresh_id !in log
      modifies this
      ensures Valid() && sid == if sagaType in defs && inserted then fresh_id else 0
      ensures sid == 0 ==> W() == old(W())
      ensures sid != 0 ==> Leads(defs, old(W()), [Event.Start(sid, sagaType, payload)], W())
      ensures sid != 0 ==> tables == old(tables) && sid in log && log == old(log)[sid := log[sid]]
      ensures sid != 0 ==> log[sid].sagaType == sagaType && log[sid].payload == payload && log[sid].state == Running && log[sid].currentStep == 0
    {
      sid := 0;
      if sagaType !in defs { return; }
      if !inserted { return; }
      ghost var w, e := W(), Event.Start(fresh_id, sagaType, payload);
      assert fresh_id in running ==> ContextOk(defs, w, fresh_id);
      sid := fresh_id;
      log := log[sid := LogRow(sagaType, Running, 0, payload)];
      history := history + [Began(sid, sagaType, payload)];
      NextKeepsInv(defs, start, w, e);
      LeadsOne(defs, w, e);
    }

    /** One forward step in its own transaction; fault says why it did not commit. */
    method TryStep(sid: int, steps: seq<Step<T, P>>, step: nat, payload: P, luck: Luck)
      returns (result: Option<P>, fault: Fault, failedPayload: P, ghost e: Event<P>)
      requires sid in log && log[sid].sagaType in defs && steps == defs[log[sid].sagaType] && step < |steps|
      requires sid in running && running[sid] == Context(log[sid].sagaType, step, payload, Forward) && log[sid].currentStep == step
      modifies this`tables, this`log, this`running, this`history
      ensures Enabled(defs, old(W()), e) && W() == Next(defs, old(W()), e)
      ensures result.Some? <==> luck.connected && luck.begun && luck.committed && steps[step].forward(old(tables), payload, luck.choice).StepOk?
      ensures result.Some? ==> e == CommitStep(sid, luck.choice)
      ensures result.Some? ==> steps[step].forward(old(tables), payload, luck.choice) == StepOk(tables, result.value)
      ensures result.None? ==> e == FailStep(sid, fault)
      ensures result.None? ==> failedPayload == AfterFault(steps[step].forward, tables, payload, fault)
      ensures result.Some? ==> log == old(log)[sid := old(log[sid]).(currentStep := step + 1, payload := result.value)]
      ensures result.None? ==> tables == old(tables) && log == old(log)
      ensures running == old(running)[sid := if result.Some? then Context(log[sid].sagaType, step + 1, result.value, Forward)
                                             else Context(log[sid].sagaType, step, failedPayload, Failing)]
    {
      result, fault, failedPayload := None, NoConnection, payload;
      if luck.connected && luck.begun {
        var r := steps[step].forward(tables, payload, luck.choice);
        if r.StepFailed? {
          fault, failedPayload := StepRefused(luck.choice), r.payload;
        } else if !luck.committed {
          fault, failedPayload := CommitRefused(luck.choice), r.payload;
        } else {
          e := CommitStep(sid, luck.choice);
          tables := r.tables;
          log := log[sid := log[sid].(currentStep := step + 1, payload := r.payload)];
          running := running[sid := running[sid].(step := step + 1, payload := r.payload)];
          history := history + [Applied(sid, step, luck.choice)];
          result := Some(r.payload);
          return;
        }
      }
      e := FailStep(sid, fault);
      running := running[sid := running[sid].(payload := failedPayload, phase := Failing)];
    }

    /** The process may die at any time. */
    lemma Dies(w0: World<T, P>, es: seq<Event<P>>)
      requires Leads(defs, w0, es, W())
      ensures Leads(defs, w0, es + [Crash], W().(running := map[]))
    {
      LeadsSnoc(defs, w0, es, W(), Crash);
    }

    /** The forward loop of execute, from the step saga_log names. */
    method ForwardPhase(sid: int, steps: seq<Step<T, P>>, first: P, env: nat -> Luck)
      returns (crashed: bool, ok: bool, step: nat, payload: P, ghost choices: seq<nat>, ghost fault: Fault, ghost es: seq<Event<P>>)
      requires sid in log && sid in running && log[sid].sagaType in defs && steps == defs[log[sid].sagaType]
      requires log[sid].currentStep <= |steps| && log[sid].payload == first
      requires running[sid] == Context(log[sid].sagaType, log[sid].currentStep, first, Forward)
      modifies this`tables, this`log, this`running, this`history
      ensures Leads(defs, old(W()), es, W())
      ensures sid in log && log == old(log)[sid := log[sid]] && log[sid].sagaType == old(log[sid].sagaType)
      ensures old(log[sid].currentStep) + |choices| == log[sid].currentStep <= |steps|
      ensures RunForward(steps, old(log[sid].currentStep), old(tables), first, choices) == Some((tables, log[sid].payload))
      ensures crashed ==> running == map[] && log[sid].currentStep < |steps| && !env(log[sid].currentStep).alive
      ensures !crashed ==> step == log[sid].currentStep && (ok <==> step == |steps|)
      ensures !crashed && !ok ==> env(step).alive && !Goes(steps[step].forward, tables, log[sid].payload, env(step))
      ensures !crashed && ok ==> payload == log[sid].payload
      ensures !crashed && ok ==> running == old(running)[sid := Context(log[sid].sagaType, step, payload, Forward)]
      ensures !crashed && !ok ==>
                && payload == AfterFault(steps[step].forward, tables, log[sid].payload, fault)
                && running == old(running)[sid := Context(log[sid].sagaType, step, payload, Failing)]
    {
      crashed, ok, step, payload, choices, fault, es := false, true, log[sid].currentStep, first, [], NoConnection, [];
      while step < |steps|
        invariant sid in log && log[sid].sagaType == old(log[sid].sagaType)
        invariant Leads(defs, old(W()), es, W())
        invariant old(log[sid].currentStep) + |choices| == step == log[sid].currentStep <= |steps|
        invariant payload == log[sid].payload && log == old(log)[sid := log[sid]]
        invariant running == old(running)[sid := Context(log[sid].sagaType, step, payload, Forward)]
        invariant RunForward(steps, old(log[sid].currentStep), old(tables), first, choices) == Some((tables, payload))
      {
        ghost var w := W();
        if !env(step).alive {
          Dies(old(W()), es);
          running, crashed, es := map[], true, es + [Crash];
          return;
        }
        var r, why, failedPayload, e := TryStep(sid, steps, step, payload, env(step));
        LeadsSnoc(defs, old(W()), es, w, e);
        es := es + [e];
        if r.None? {
          ok, payload, fault := false, failedPayload, why;
          return;
        }
        RunForwardSnoc(steps, old(log[sid].currentStep), old(tables), first, choices, env(step).choice, w.tables, payload, tables, r.value);
        step, payload, choices := step + 1, r.value, choices + [env(step).choice];
      }
    }

    /** One compensation in its own transaction; failures are logged and passed over. */
    method TryUndo(sid: int, steps: seq<Step<T, P>>, i: nat, q: P, luck: Luck)
      returns (undone: bool, q': P, ghost e: Event<P>)
      requires sid in log && log[sid].sagaType in defs && steps == defs[log[sid].sagaType] && i < |steps|
      requires sid in running && running[sid].sagaType == log[sid].sagaType
      requires running[sid].payload == q && running[sid].phase == Undoing(i)
      modifies this`tables, this`running, this`history
      ensures Enabled(defs, old(W()), e) && W() == Next(defs, old(W()), e)
      ensures undone <==> steps[i].compensate.Some? && luck.connected && (luck.begun ==> luck.committed)
                          && steps[i].compensate.value(old(tables), q, luck.choice).StepOk?
      ensures undone ==> e == CommitUndo(sid, luck.choice)
      ensures !undone ==> Skips(e, sid, steps[i], luck) && tables == old(tables)
      ensures undone ==> steps[i].compensate.value(old(tables), q, luck.choice) == StepOk(tables, q')
      ensures sid in running && running[sid] == old(running[sid]).(payload := q', phase := Undoing(i - 1))
      ensures running - {sid} == old(running) - {sid}
    {
      undone, q' := false, q;
      var fault := NoConnection;
      if steps[i].compensate.Some? {
        if luck.connected {
          var r := steps[i].compensate.value(tables, q, luck.choice);
          q' := r.payload;
          if r.StepOk? && (luck.committed || !luck.begun) {
            undone, e := true, CommitUndo(sid, luck.choice);
            tables, history := r.tables, history + [Undone(sid, i, luck.choice, q)];
            running := running[sid := running[sid].(payload := q', phase := Undoing(i - 1))];
            return;
          }
          fault := if r.StepOk? then CommitRefused(luck.choice) else StepRefused(luck.choice);
        }
      }
      e := SkipUndo(sid, fault);
      running := running[sid := running[sid].(payload := q', phase := Undoing(i - 1))];
    }

    /** The compensation loop of execute: step-1 down to 0, best effort. */
    method CompensationPhase(sid: int, steps: seq<Step<T, P>>, step: nat, first: P, env: nat -> Luck)
      returns (crashed: bool, ghost undo: Option<seq<nat>>, ghost es: seq<Event<P>>)
      requires sid in log && log[sid].sagaType in defs && steps == defs[log[sid].sagaType] && step <= |steps|
      requires sid in running && running[sid] == Context(log[sid].sagaType, step, first, Undoing(step - 1))
      modifies this`tables, this`running, this`history
      ensures Leads(defs, old(W()), es, W())
      ensures crashed ==> running == map[] && exists i: nat :: i < step && !env(i).alive
      ensures !crashed ==> sid in running && running[sid].sagaType == log[sid].sagaType && running[sid].phase == Undoing(-1)
      ensures !crashed ==> running - {sid} == old(running) - {sid}
      ensures !crashed && undo.Some? ==>
                |undo.value| == step && RollBack(steps, old(tables), first, undo.value) == Some(tables)
      ensures !crashed && undo.None? ==> PassedOver(es, sid, steps, env, step)
    {
      crashed, es := false, [];
      var i, q := step, first;
      ghost var done: seq<nat>, all := [], true;
      assert forall pre: seq<nat> :: pre + done == pre;
      while i > 0
        invariant 0 <= i <= step && Leads(defs, old(W()), es, W())
        invariant sid in running && running[sid].sagaType == log[sid].sagaType
        invariant running[sid].payload == q && running[sid].phase == Undoing(i - 1)
        invariant running - {sid} == old(running) - {sid}
        invariant !all ==> PassedOver(es, sid, steps, env, step)
        invariant all ==> i + |done| == step && OnCourse(steps, old(tables), first, done, i, tables, q)
      {
        ghost var w := W();
        i := i - 1;
        if !env(i).alive {
          running, crashed := map[], true;
          LeadsSnoc(defs, old(W()), es, w, Crash);
          es, undo := es + [Crash], None;
          return;
        }
        var undone, q', e := TryUndo(sid, steps, i, q, env(i));
        LeadsSnoc(defs, old(W()), es, w, e);
        if !undone {
          PassedOverNow(e, sid, steps, env, step, i);
        }
        if !undone || !all {
          PassedOverStays(es, [e], sid, steps, env, step);
        }
        es := es + [e];
        if undone && all {
          OnCourseNext(steps, old(tables), first, done, i, w.tables, q, env(i).choice);
          done := [env(i).choice] + done;
        } else {
          all := false;
        }
        q := q';
      }
      undo := if all then Some(done) else None;
      assert all ==> RollBack(steps, old(tables), first, [] + done) == RollBack(steps, tables, q, []);
      assert [] + done == done;
    }

    /** markDone or markFailed, after which the executor is gone; the update may be lost, the process may die first. */
    method Settle(sid: int, ok: bool, pen: Pen) returns (crashed: bool, ghost es: seq<Event<P>>)
      requires sid in log && sid in running
      requires Enabled(defs, W(), if ok then Finish(sid, true) else Close(sid, true))
      modifies this`log, this`running
      ensures Leads(defs, old(W()), es, W())
      ensures crashed <==> !pen.alive
      ensures running == if crashed then map[] else old(running) - {sid}
      ensures log == Mark(old(log), sid, if ok then Done else Failed, pen.alive && pen.marked)
    {
      ghost var w, e := W(), if !pen.alive then Crash else if ok then Finish(sid, pen.marked) else Close(sid, pen.marked);
      crashed, es := !pen.alive, [e];
      LeadsOne(defs, w, e);
      if crashed {
        running := map[];
        return;
      }
      log := Mark(log, sid, if ok then Done else Failed, pen.marked);
      running := running - {sid};
    }

    /** markCompensating, which may be lost; the process may die first. */
    method BeginUndo(sid: int, step: nat, payload: P, pen: Pen) returns (crashed: bool, ghost es: seq<Event<P>>)
      requires sid in log && log[sid].sagaType in defs
      requires sid in running && running[sid] == Context(log[sid].sagaType, step, payload, Failing)
      modifies this`log, this`running
      ensures Leads(defs, old(W()), es, W())
      ensures crashed <==> !pen.alive
      ensures log == Mark(old(log), sid, Compensating, pen.alive && pen.marked)
      ensures running == if crashed then map[] else old(running)[sid := Context(log[sid].sagaType, step, payload, Undoing(step - 1))]
    {
      ghost var w, e := W(), if pen.alive then MarkCompensating(sid, pen.marked) else Crash;
      crashed, es := !pen.alive, [e];
      LeadsOne(defs, w, e);
      if crashed {
        running := map[];
        return;
      }
      log := Mark(log, sid, Compensating, pen.marked);
      running := running[sid := running[sid].(phase := Undoing(step - 1))];
    }

    /** The compensations and markFailed. */
    method UndoAll(sid: int, steps: seq<Step<T, P>>, step: nat, payload: P, env: Env)
      returns (crashed: bool, ghost undo: Option<seq<nat>>, ghost es: seq<Event<P>>)
      requires sid in log && log[sid].sagaType in defs && steps == defs[log[sid].sagaType] && step < |steps|
      requires sid in running && running[sid] == Context(log[sid].sagaType, step, payload, Undoing(step - 1))
      modifies this`tables, this`log, this`running, this`history
      ensures Leads(defs, old(W()), es, W())
      ensures crashed ==> running == map[] && !Immortal(env)
      ensures !crashed ==> running == old(running) - {sid}
      ensures sid in log && log == old(log)[sid := old(log[sid]).(state := log[sid].state)]
      ensures !crashed && env.settle.marked ==> log[sid].state == Failed
      ensures !crashed && undo.Some? ==>
                |undo.value| == step && RollBack(steps, old(tables), payload, undo.value) == Some(tables)
      ensures !crashed && undo.None? ==> PassedOver(es, sid, steps, env.undo, step)
    {
      crashed, undo, es := CompensationPhase(sid, steps, step, payload, env.undo);
      if crashed {
        return;
      }
      ghost var w := W();
      var gone, fs := Settle(sid, false, env.settle);
      LeadsThrough(defs, old(W()), es, w, fs, W());
      if undo.None? {
        PassedOverStays(es, fs, sid, steps, env.undo, step);
      }
      es, crashed := es + fs, gone;
    }

    /** Everything after a failed forward step: markCompensating, the compensations, markFailed. */
    method GiveUp(sid: int, steps: seq<Step<T, P>>, step: nat, payload: P, env: Env)
      returns (crashed: bool, ghost undo: Option<seq<nat>>, ghost es: seq<Event<P>>)
      requires sid in log && log[sid].sagaType in defs && steps == defs[log[sid].sagaType] && step < |steps|
      requires sid in running && running[sid] == Context(log[sid].sagaType, step, payload, Failing)
      modifies this`tables, this`log, this`running, this`history
      ensures Leads(defs, old(W()), es, W())
      ensures crashed ==> running == map[] && !Immortal(env)
      ensures !crashed ==> running == old(running) - {sid}
      ensures sid in log && log == old(log)[sid := old(log[sid]).(state := log[sid].state)]
      ensures !crashed && env.settle.marked ==> log[sid].state == Failed
      ensures !crashed && undo.Some? ==>
                |undo.value| == step && RollBack(steps, old(tables), payload, undo.value) == Some(tables)
      ensures !crashed && undo.None? ==> PassedOver(es, sid, steps, env.undo, step)
    {
      undo := None;
      crashed, es := BeginUndo(sid, step, payload, env.giveUp);
      if crashed {
        return;
      }
      ghost var w := W();
      var died, u, fs := UndoAll(sid, steps, step, payload, env);
      LeadsThrough(defs, old(W()), es, w, fs, W());
      if !died && u.None? {
        PassedOverStays(es, fs, sid, steps, env.undo, step);
      }
      crashed, undo, es := died, u, es + fs;
    }

    /** After the forward loop: markDone, or everything that follows a failure. */
    method Conclude(sid: int, steps: seq<Step<T, P>>, step: nat, ok: bool, payload: P, env: Env)
      returns (crashed: bool, ghost undo: Option<seq<nat>>, ghost es: seq<Event<P>>)
      requires sid in log && log[sid].sagaType in defs && steps == defs[log[sid].sagaType] && (if ok then step == |steps| else step < |steps|)
      requires sid in running && running[sid] == Context(log[sid].sagaType, step, payload, if ok then Forward else Failing)
      modifies this`tables, this`log, this`running, this`history
      ensures Leads(defs, old(W()), es, W())
      ensures crashed ==> running == map[] && !Immortal(env)
      ensures !crashed ==> running == old(running) - {sid}
      ensures sid in log && log == old(log)[sid := old(log[sid]).(state := log[sid].state)]
      ensures !crashed && env.settle.marked ==> log[sid].state == if ok then Done else Failed
      ensures ok ==> tables == old(tables)
      ensures !ok && !crashed && undo.Some? ==>
                |undo.value| == step && RollBack(steps, old(tables), payload, undo.value) == Some(tables)
      ensures !ok && !crashed && undo.None? ==> PassedOver(es, sid, steps, env.undo, step)
    {
      if ok {
        undo := None;
        crashed, es := Settle(sid, true, env.settle);
      } else {
        crashed, undo, es := GiveUp(sid, steps, step, payload, env);
      }
    }

    method ExecuteLoaded(sid: int, env: Env)
      returns (outcome: Outcome, ghost choices: seq<nat>, ghost fault: Fault, ghost undo: Option<seq<nat>>, ghost es: seq<Event<P>>)
      requires sid in log && sid !in running
      requires log[sid].sagaType in defs && log[sid].currentStep <= |defs[log[sid].sagaType]|
      modifies this`tables, this`log, this`running, this`history
      ensures Leads(defs, old(W()), es, W())
      ensures running == if outcome.Crashed? then map[] else old(running)
      ensures sid in log && log == old(log)[sid := log[sid]]
      ensures outcome.Crashed? ==> !Immortal(env)
      ensures outcome.Returned? ==>
                sid in log && Ran(defs, sid, old(W()), W(), env, outcome.ok, choices, fault, undo, es)
    {
      var row := log[sid];
      var steps := defs[row.sagaType];
      ghost var w0 := W();
      undo := None;
      running := running[sid := Context(row.sagaType, row.currentStep, row.payload, Forward)];
      LeadsOne(defs, w0, Load(sid));
      es := [Load(sid)];
      ghost var w1 := W();
      var crashed, ok, step, payload, cs, why, fs := ForwardPhase(sid, steps, row.payload, env.forward);
      LeadsThrough(defs, w0, es, w1, fs, W());
      es, choices, fault := es + fs, cs, why;
      if crashed { outcome := Crashed; return; }
      ghost var w2 := W();
      var gone, u, gs := Conclude(sid, steps, step, ok, payload, env);
      LeadsThrough(defs, w0, es, w2, gs, W());
      if !gone && !ok && u.None? {
        PassedOverStays(es, gs, sid, steps, env.undo, step);
      }
      es, undo := es + gs, u;
      outcome := if gone then Crashed else Returned(ok);
    }

    /** execute. On success nothing was compensated and every remaining step ran once, in order. It fails only at a step
        k that the environment did not let through; then the tables went forward to k, and compensations k-1 down to 0
        all committed on top of that (undo), unless one of them was passed over. The state column is not looked at. */
    method Execute(sid: int, env: Env)
      returns (outcome: Outcome, ghost choices: seq<nat>, ghost fault: Fault, ghost undo: Option<seq<nat>>, ghost es: seq<Event<P>>)
      requires Valid() && sid !in running
      modifies this`tables, this`log, this`running, this`history
      ensures Valid() && Leads(defs, old(W()), es, W())
      ensures running == if outcome.Crashed? then map[] else old(running)
      ensures sid in old(log) ==> sid in log && log == old(log)[sid := log[sid]]
      ensures !env.loaded || sid !in old(log) ==> outcome == Returned(false) && W() == old(W())
      ensures outcome.Crashed? ==> !Immortal(env)
      ensures outcome.Returned? && env.loaded && sid in old(log) ==>
                Ran(defs, sid, old(W()), W(), env, outcome.ok, choices, fault, undo, es)
    {
      choices, fault, undo, es := [], NoConnection, None, [];
      if !env.loaded || sid !in log { outcome := Returned(false); return; }
      assert SagaOk(defs, start, W(), sid);
      outcome, choices, fault, undo, es := ExecuteLoaded(sid, env);
      RunKeepsInv(defs, start, old(W()), es, W());
    }

    method RecoverOne(ids: seq<int>, envs: nat -> Env, n: nat, ghost stages: seq<World<T, P>>) returns (crashed: bool, ghost es: seq<Event<P>>)
      requires Valid() && running == map[] && n < |ids| && ids[n] in log && |stages| == n + 1 && stages[n] == W()
      requires forall m: nat {:trigger Executed(defs, ids, envs, stages, m)} :: m < n ==> Executed(defs, ids, envs, stages, m)
      modifies this`tables, this`log, this`running, this`history
      ensures Valid() && running == map[] && Leads(defs, old(W()), es, W())
      ensures ids[n] in log && log == old(log)[ids[n] := log[ids[n]]]
      ensures crashed ==> !Immortal(envs(n))
      ensures !crashed ==> Settled(log, ids[n], envs(n))
      ensures !crashed ==>
                forall m: nat {:trigger Executed(defs, ids, envs, stages + [W()], m)} :: m <= n ==> Executed(defs, ids, envs, stages + [W()], m)
    {
      var outcome, choices, fault, undo, fs := Execute(ids[n], envs(n));
      crashed, es := outcome.Crashed?, fs;
      if !crashed {
        ExecutedNext(defs, ids, envs, stages, W(), n, outcome.ok, choices, fault, undo, fs);
      }
    }

    /** recoverIncomplete: executes every saga found in state running or compensating, one after the other; stages are
        the worlds before, between and after the executions. */
    method RecoverIncomplete(ids: seq<int>, envs: nat -> Env) returns (handled: Option<nat>, ghost stages: seq<World<T, P>>, ghost es: seq<Event<P>>)
      requires Valid() && running == map[] && NoDuplicates(ids)
      requires forall sid :: sid in ids <==> sid in log && log[sid].state in {Running, Compensating}
      modifies this`tables, this`log, this`running, this`history
      ensures Valid() && Leads(defs, old(W()), es, W()) && running == map[]
      ensures handled.None? ==> exists n: nat :: n < |ids| && !Immortal(envs(n))
      ensures handled.Some? ==> handled.value == |ids|
      ensures handled.Some? ==> |stages| == |ids| + 1 && stages[0] == old(W()) && stages[|ids|] == W()
      ensures handled.Some? ==> forall n: nat {:trigger Executed(defs, ids, envs, stages, n)} :: n < |ids| ==> Executed(defs, ids, envs, stages, n)
      ensures handled.Some? ==> Recovered(old(log), log, ids, envs, |ids|)
      ensures Untouched(old(log), log, ids)
    {
      es, stages := [], [W()];
      for n := 0 to |ids|
        invariant Valid() && Leads(defs, old(W()), es, W()) && running == map[]
        invariant |stages| == n + 1 && stages[0] == old(W()) && stages[n] == W()
        invariant Recovered(old(log), log, ids, envs, n)
        invariant forall m: nat {:trigger Executed(defs, ids, envs, stages, m)} :: m < n ==> Executed(defs, ids, envs, stages, m)
      {
        ghost var sid, w := ids[n], W();
        assert sid in ids;
        var crashed, fs := RecoverOne(ids, envs, n, stages);
        LeadsThrough(defs, old(W()), es, w, fs, W());
        es := es + fs;
        RecoveredNext(old(log), w.log, log, ids, envs, n, crashed);
        if crashed { return None, stages, es; }
        stages := stages + [W()];
      }
      handled := Some(|ids|);
      assert ids[..|ids|] == ids;
    }
  }
}
