/** The two-step saga group_create of src/server/GroupService.h, run by the coordinator. */
module GroupSaga {
  import opened Options
  import opened Saga
  import opened SagaExecution
  import opened SagaResume

  datatype Group = Group(name: string, owner: int)
  datatype RawTables = Tables(groups: map<int, Group>, members: set<(int, int)>, nextId: int)

  /** What the schema guarantees: positive ids below the auto-increment counter, no membership without its group. */
  ghost predicate SchemaOk(t: RawTables) {
    && t.nextId > 0
    && (forall g :: g in t.groups ==> 0 < g < t.nextId)
    && (forall m :: m in t.members ==> m.0 in t.groups)
  }

  type Tables = t: RawTables | SchemaOk(t) witness Tables(map[], {}, 1)
  datatype Payload = Payload(owner: int, name: string, groupId: int)

  // ----- the four step functions; choice 0 stands for a statement the database refuses -----

  function InsertGroup(t: Tables, p: Payload, choice: nat): StepResult<Tables, Payload> {
    if p.name == "" || p.owner == 0 || choice == 0 then StepFailed(p)
    else
      var id := t.nextId + choice - 1;
      StepOk(t.(groups := t.groups[id := Group(p.name, p.owner)], nextId := id + 1), p.(groupId := id))
  }

  function DeleteGroup(t: Tables, p: Payload, choice: nat): StepResult<Tables, Payload> {
    if p.groupId == 0 then StepOk(t, p)
    else if choice == 0 then StepFailed(p)
    else StepOk(t.(groups := t.groups - {p.groupId}, members := set m | m in t.members && m.0 != p.groupId), p)
  }

  function InsertOwner(t: Tables, p: Payload, choice: nat): StepResult<Tables, Payload> {
    if p.groupId == 0 || p.owner == 0 || choice == 0 then StepFailed(p)
    else if p.groupId !in t.groups || (p.groupId, p.owner) in t.members then StepFailed(p)
    else StepOk(t.(members := t.members + {(p.groupId, p.owner)}), p)
  }

  function DeleteOwner(t: Tables, p: Payload, choice: nat): StepResult<Tables, Payload> {
    if p.groupId == 0 || p.owner == 0 then StepOk(t, p)
    else if choice == 0 then StepFailed(p)
    else StepOk(t.(members := t.members - {(p.groupId, p.owner)}), p)
  }

  const STEPS: seq<Step<Tables, Payload>> :=
    [Step(InsertGroup, Some(DeleteGroup)), Step(InsertOwner, Some(DeleteOwner))]

  const DEFS: Definitions<Tables, Payload> := map["group_create" := STEPS]

  // ----- compensation inverts -----

  predicate SameRows(s: Tables, t: Tables) {
    s.groups == t.groups && s.members == t.members
  }

  predicate KeepsIds(i: nat, p: Payload, q: Payload) {
    p.groupId == q.groupId && p.owner == q.owner
  }

  lemma GroupStepsReversible()
    ensures Reversible(STEPS, SameRows, KeepsIds)
  {
    forall t: Tables ensures SameRows(t, t) {}
    forall i: nat, p: Payload ensures KeepsIds(i, p, p) {}
    forall i: nat, t: Tables, p: Payload, c: nat, s: Tables, q: Payload, c': nat | i < |STEPS|
      ensures Undoes(STEPS, i, SameRows, KeepsIds, t, p, c, s, q, c')
    {
      if i == 0 && InsertGroup(t, p, c).StepOk? && DeleteGroup(s, q, c').StepOk?
         && SameRows(s, InsertGroup(t, p, c).tables) && KeepsIds(0, InsertGroup(t, p, c).payload, q) {
        InsertThenDelete(t, p, c, s, q, c');
      }
    }
    forall i: nat, j: nat, p: Payload, t: Tables, q: Payload, c: nat | i < j < |STEPS|
      ensures Carries(STEPS, i, j, KeepsIds, p, t, q, c)
    {
    }
  }

  lemma InsertThenDelete(t: Tables, p: Payload, c: nat, s: Tables, q: Payload, c': nat)
    requires InsertGroup(t, p, c).StepOk? && DeleteGroup(s, q, c').StepOk?
    requires SameRows(s, InsertGroup(t, p, c).tables) && KeepsIds(0, InsertGroup(t, p, c).payload, q)
    ensures SameRows(DeleteGroup(s, q, c').tables, t)
  {
  }

  // ----- every run of any number of group creations -----

  type GroupWorld = World<Tables, Payload>

  /** createGroupViaSaga starts with group_id 0. */
  predicate FromCreateGroup(e: Event<Payload>) {
    e.Start? ==> e.sagaType == "group_create" && e.payload.groupId == 0
  }

  ghost predicate NoMembers(t: Tables, groupId: int) {
    forall u :: (groupId, u) !in t.members
  }

  ghost predicate NoRows(t: Tables, groupId: int) {
    groupId !in t.groups && NoMembers(t, groupId)
  }

  /** What the tables hold for one saga, to the row: determined by its progress and by whether it was ever undone. */
  ghost predicate RowsOk(w: GroupWorld, sid: int)
    requires sid in w.log
  {
    var row := w.log[sid];
    var p := row.payload;
    && row.currentStep <= 2
    && (row.currentStep == 0 <==> p.groupId == 0)
    && 0 <= p.groupId < w.tables.nextId
    && (row.currentStep == 0 || HasUndo(w.history, sid) ==> NoRows(w.tables, p.groupId))
    && (row.currentStep > 0 && !HasUndo(w.history, sid) ==>
          p.groupId in w.tables.groups && w.tables.groups[p.groupId] == Group(p.name, p.owner))
    && (row.currentStep == 0 ==> !HasUndo(w.history, sid))
    && (row.currentStep == 1 ==> NoMembers(w.tables, p.groupId))
    && (row.currentStep == 2 ==> !HasUndo(w.history, sid) && (p.groupId, p.owner) in w.tables.members)
  }

  ghost predicate Apart(w: GroupWorld, a: int, b: int)
    requires a in w.log && b in w.log
  {
    a != b && w.log[a].payload.groupId == w.log[b].payload.groupId ==> w.log[a].payload.groupId == 0
  }

  /** An executor that has given up at step 1 still knows its own group id. */
  ghost predicate MemoryOk(w: GroupWorld, sid: int)
    requires sid in w.running
  {
    var ctx := w.running[sid];
    sid in w.log && (ctx.phase != Forward && ctx.step > 0 ==> ctx.payload == w.log[sid].payload)
  }

  ghost predicate GroupInv(t0: Tables, w: GroupWorld) {
    && Inv(DEFS, t0, w)
    && (forall sid {:trigger RowsOk(w, sid)} :: sid in w.log ==> RowsOk(w, sid))
    && (forall a, b {:trigger Apart(w, a, b)} :: a in w.log && b in w.log ==> Apart(w, a, b))
    && (forall sid {:trigger MemoryOk(w, sid)} :: sid in w.running ==> MemoryOk(w, sid))
    && (forall sid {:trigger HasUndo(w.history, sid)} :: sid !in w.log ==> !HasUndo(w.history, sid))
  }

  /** A saga whose group id the step did not touch keeps its rows. */
  lemma RowsFrame(w: GroupWorld, w': GroupWorld, sid: int)
    requires sid in w.log && sid in w'.log && RowsOk(w, sid)
    requires w'.log[sid].payload == w.log[sid].payload && w'.log[sid].currentStep == w.log[sid].currentStep
    requires HasUndo(w'.history, sid) <==> HasUndo(w.history, sid)
    requires w.tables.nextId <= w'.tables.nextId
    requires var g := w.log[sid].payload.groupId;
             && (g in w'.tables.groups <==> g in w.tables.groups)
             && (g in w.tables.groups ==> w'.tables.groups[g] == w.tables.groups[g])
             && (forall u :: (g, u) in w'.tables.members <==> (g, u) in w.tables.members)
    ensures RowsOk(w', sid)
  {
  }

  lemma InsertGroupKeeps(t0: Tables, w: GroupWorld, e: Event<Payload>)
    requires GroupInv(t0, w) && e.CommitStep? && Enabled(DEFS, w, e) && w.running[e.sid].step == 0
    ensures GroupInv(t0, Next(DEFS, w, e))
  {
    var w' := Next(DEFS, w, e);
    NextKeepsInv(DEFS, t0, w, e);
    assert ContextOk(DEFS, w, e.sid) && SagaOk(DEFS, t0, w, e.sid) && RowsOk(w, e.sid);
    forall sid ensures HasUndo(w'.history, sid) <==> HasUndo(w.history, sid) {
      HasUndoSnoc(w.history, Applied(e.sid, 0, e.choice), sid);
    }
    forall sid | sid in w'.log ensures RowsOk(w', sid) {
      assert RowsOk(w, sid);
      if sid != e.sid { RowsFrame(w, w', sid); }
    }
    forall a, b | a in w'.log && b in w'.log ensures Apart(w', a, b) {
      assert Apart(w, a, b) && RowsOk(w, a) && RowsOk(w, b);
    }
    forall sid | sid in w'.running ensures MemoryOk(w', sid) {
      assert MemoryOk(w, sid);
    }
  }

  lemma InsertOwnerKeeps(t0: Tables, w: GroupWorld, e: Event<Payload>)
    requires GroupInv(t0, w) && e.CommitStep? && Enabled(DEFS, w, e) && w.running[e.sid].step == 1
    ensures GroupInv(t0, Next(DEFS, w, e))
  {
    var w' := Next(DEFS, w, e);
    NextKeepsInv(DEFS, t0, w, e);
    assert ContextOk(DEFS, w, e.sid) && SagaOk(DEFS, t0, w, e.sid) && RowsOk(w, e.sid);
    forall sid ensures HasUndo(w'.history, sid) <==> HasUndo(w.history, sid) {
      HasUndoSnoc(w.history, Applied(e.sid, 1, e.choice), sid);
    }
    forall sid | sid in w'.log ensures RowsOk(w', sid) {
      assert RowsOk(w, sid) && Apart(w, sid, e.sid);
      if sid != e.sid { RowsFrame(w, w', sid); }
    }
    forall a, b | a in w'.log && b in w'.log ensures Apart(w', a, b) {
      assert Apart(w, a, b);
    }
    forall sid | sid in w'.running ensures MemoryOk(w', sid) {
      assert MemoryOk(w, sid);
    }
  }

  lemma UndoKeeps(t0: Tables, w: GroupWorld, e: Event<Payload>)
    requires GroupInv(t0, w) && e.CommitUndo? && Enabled(DEFS, w, e)
    ensures GroupInv(t0, Next(DEFS, w, e))
  {
    var w' := Next(DEFS, w, e);
    NextKeepsInv(DEFS, t0, w, e);
    var ctx := w.running[e.sid];
    assert ContextOk(DEFS, w, e.sid) && SagaOk(DEFS, t0, w, e.sid) && RowsOk(w, e.sid) && MemoryOk(w, e.sid);
    assert ctx.step == 1 && ctx.phase.next == 0;
    forall sid ensures HasUndo(w'.history, sid) <==> HasUndo(w.history, sid) || sid == e.sid {
      HasUndoSnoc(w.history, Undone(e.sid, 0, e.choice, ctx.payload), sid);
    }
    forall sid | sid in w'.log ensures RowsOk(w', sid) {
      assert RowsOk(w, sid) && Apart(w, sid, e.sid);
      if sid != e.sid { RowsFrame(w, w', sid); }
    }
    forall a, b | a in w'.log && b in w'.log ensures Apart(w', a, b) {
      assert Apart(w, a, b);
    }
    forall sid | sid in w'.running ensures MemoryOk(w', sid) {
      assert MemoryOk(w, sid);
    }
  }

  lemma IdZeroHasNoRows(t: Tables)
    ensures NoRows(t, 0)
  {
    assert SchemaOk(t);
    forall u ensures (0, u) !in t.members {
      assert (0, u) in t.members ==> (0, u).0 in t.groups;
    }
  }

  lemma StartRows(t0: Tables, w: GroupWorld, e: Event<Payload>, sid: int)
    requires GroupInv(t0, w) && e.Start? && FromCreateGroup(e) && Enabled(DEFS, w, e)
    requires sid in w.log || sid == e.sid
    ensures RowsOk(Next(DEFS, w, e), sid)
  {
    var w' := Next(DEFS, w, e);
    HasUndoSnoc(w.history, Began(e.sid, e.sagaType, e.payload), sid);
    if sid == e.sid {
      IdZeroHasNoRows(w.tables);
      assert SchemaOk(w.tables);
    } else {
      assert RowsOk(w, sid);
      RowsFrame(w, w', sid);
    }
  }

  lemma StartApart(t0: Tables, w: GroupWorld, e: Event<Payload>, a: int, b: int)
    requires GroupInv(t0, w) && e.Start? && FromCreateGroup(e) && Enabled(DEFS, w, e)
    requires (a in w.log || a == e.sid) && (b in w.log || b == e.sid)
    ensures Apart(Next(DEFS, w, e), a, b)
  {
    assert a in w.log && b in w.log ==> Apart(w, a, b);
  }

  lemma StartKeeps(t0: Tables, w: GroupWorld, e: Event<Payload>)
    requires GroupInv(t0, w) && e.Start? && FromCreateGroup(e) && Enabled(DEFS, w, e)
    ensures GroupInv(t0, Next(DEFS, w, e))
  {
    var w' := Next(DEFS, w, e);
    forall sid | sid in w'.log ensures RowsOk(w', sid) {
      StartRows(t0, w, e, sid);
    }
    forall a, b | a in w'.log && b in w'.log ensures Apart(w', a, b) {
      StartApart(t0, w, e, a, b);
    }
    forall sid | sid in w'.running ensures MemoryOk(w', sid) {
      assert MemoryOk(w, sid);
    }
    NextKeepsInv(DEFS, t0, w, e);
    forall sid | sid !in w'.log ensures !HasUndo(w'.history, sid) {
      HasUndoSnoc(w.history, Began(e.sid, e.sagaType, e.payload), sid);
    }
  }

  lemma QuietFrame(w: GroupWorld, e: Event<Payload>)
    requires Enabled(DEFS, w, e) && !e.Start? && !e.CommitStep? && !e.CommitUndo?
    ensures var w' := Next(DEFS, w, e);
            && w'.tables == w.tables && w'.history == w.history && w'.log.Keys == w.log.Keys
            && forall sid :: sid in w.log ==>
                 w'.log[sid].payload == w.log[sid].payload && w'.log[sid].currentStep == w.log[sid].currentStep
  {
  }

  lemma QuietRows(w: GroupWorld, w': GroupWorld)
    requires w'.tables == w.tables && w'.history == w.history && w'.log.Keys == w.log.Keys
    requires forall sid :: sid in w.log ==>
               w'.log[sid].payload == w.log[sid].payload && w'.log[sid].currentStep == w.log[sid].currentStep
    requires forall sid {:trigger RowsOk(w, sid)} :: sid in w.log ==> RowsOk(w, sid)
    requires forall a, b {:trigger Apart(w, a, b)} :: a in w.log && b in w.log ==> Apart(w, a, b)
    ensures forall sid {:trigger RowsOk(w', sid)} :: sid in w'.log ==> RowsOk(w', sid)
    ensures forall a, b {:trigger Apart(w', a, b)} :: a in w'.log && b in w'.log ==> Apart(w', a, b)
  {
    forall sid | sid in w'.log ensures RowsOk(w', sid) {
      assert RowsOk(w, sid);
    }
    forall a, b | a in w'.log && b in w'.log ensures Apart(w', a, b) {
      assert Apart(w, a, b);
    }
  }

  lemma QuietKeeps(t0: Tables, w: GroupWorld, e: Event<Payload>)
    requires GroupInv(t0, w) && Enabled(DEFS, w, e) && !e.Start? && !e.CommitStep? && !e.CommitUndo?
    ensures GroupInv(t0, Next(DEFS, w, e))
  {
    var w' := Next(DEFS, w, e);
    QuietFrame(w, e);
    QuietRows(w, w');
    NextKeepsInv(DEFS, t0, w, e);
    forall sid | sid in w'.running ensures MemoryOk(w', sid) {
      QuietMemory(t0, w, e, sid);
    }
  }

  /** A step that fails leaves the payload of a group saga as it was, unless it was the insertion itself. */
  lemma QuietMemory(t0: Tables, w: GroupWorld, e: Event<Payload>, sid: int)
    requires GroupInv(t0, w) && Enabled(DEFS, w, e) && !e.Start? && !e.CommitStep? && !e.CommitUndo?
    requires sid in Next(DEFS, w, e).running
    ensures MemoryOk(Next(DEFS, w, e), sid)
  {
    if sid in w.running {
      assert MemoryOk(w, sid) && ContextOk(DEFS, w, sid) && SagaOk(DEFS, t0, w, sid);
    }
  }

  lemma StepKeepsGroupInv(t0: Tables, w: GroupWorld, e: Event<Payload>)
    requires GroupInv(t0, w) && Enabled(DEFS, w, e) && FromCreateGroup(e)
    ensures GroupInv(t0, Next(DEFS, w, e))
  {
    if e.CommitStep? {
      assert ContextOk(DEFS, w, e.sid) && SagaOk(DEFS, t0, w, e.sid);
      if w.running[e.sid].step == 0 { InsertGroupKeeps(t0, w, e); } else { InsertOwnerKeeps(t0, w, e); }
    } else if e.CommitUndo? {
      UndoKeeps(t0, w, e);
    } else if e.Start? {
      StartKeeps(t0, w, e);
    } else {
      QuietKeeps(t0, w, e);
    }
  }

  lemma {:induction false} RunKeepsGroupInv(t0: Tables, w: GroupWorld, es: seq<Event<Payload>>, w': GroupWorld)
    requires GroupInv(t0, w) && Leads(DEFS, w, es, w') && forall e :: e in es ==> FromCreateGroup(e)
    ensures GroupInv(t0, w')
    decreases |es|
  {
    if es != [] {
      var e := es[0];
      StepKeepsGroupInv(t0, w, e);
      RunKeepsGroupInv(t0, Next(DEFS, w, e), es[1..], w');
    }
  }

  // ----- what failed means -----

  /** Once the compensation of a group saga is through, or it is marked failed, its first step is undone. */
  ghost predicate Cleared(w: GroupWorld, sid: int) {
    && (sid in w.running && sid in w.log ==> w.log[sid].state != Failed)
    && (sid in w.running && w.running[sid].phase == Undoing(-1) && w.running[sid].step > 0 ==> HasUndo(w.history, sid))
    && (sid in w.log && w.log[sid].state == Failed && w.log[sid].currentStep > 0 ==> HasUndo(w.history, sid))
  }

  /** No compensation of the saga is passed over, and it is not executed again once it is marked failed. */
  predicate OrderlyStep(w: GroupWorld, e: Event<Payload>, sid: int) {
    && !(e.SkipUndo? && e.sid == sid)
    && (e == Load(sid) && sid in w.log ==> w.log[sid].state != Failed)
  }

  /** A run of group creations in which every step is orderly about the saga. */
  ghost predicate Orderly(w: GroupWorld, es: seq<Event<Payload>>, w': GroupWorld, sid: int)
    decreases |es|
  {
    if es == [] then w == w'
    else
      && FromCreateGroup(es[0]) && Enabled(DEFS, w, es[0]) && OrderlyStep(w, es[0], sid)
      && Orderly(Next(DEFS, w, es[0]), es[1..], w', sid)
  }

  lemma StepKeepsCleared(t0: Tables, w: GroupWorld, e: Event<Payload>, sid: int)
    requires GroupInv(t0, w) && Cleared(w, sid) && Enabled(DEFS, w, e) && OrderlyStep(w, e, sid)
    ensures Cleared(Next(DEFS, w, e), sid)
  {
    UndoneBy(DEFS, w, e, sid);
    if sid in w.running {
      assert ContextOk(DEFS, w, sid);
    }
    if sid in w.log {
      assert SagaOk(DEFS, t0, w, sid);
    }
  }

  lemma {:induction false} OrderlyKeepsCleared(t0: Tables, w: GroupWorld, es: seq<Event<Payload>>, w': GroupWorld, sid: int)
    requires GroupInv(t0, w) && Cleared(w, sid) && Orderly(w, es, w', sid)
    ensures GroupInv(t0, w') && Cleared(w', sid)
    decreases |es|
  {
    if es != [] {
      StepKeepsGroupInv(t0, w, es[0]);
      StepKeepsCleared(t0, w, es[0], sid);
      OrderlyKeepsCleared(t0, Next(DEFS, w, es[0]), es[1..], w', sid);
    }
  }

  /** In an orderly run failed means that neither the group nor a membership exists. */
  lemma FailedMeansNoRows(t0: Tables, es: seq<Event<Payload>>, w: GroupWorld, sid: int)
    requires Orderly(Fresh(t0), es, w, sid) && sid in w.log && w.log[sid].state == Failed
    ensures NoRows(w.tables, w.log[sid].payload.groupId)
  {
    OrderlyKeepsCleared(t0, Fresh(t0), es, w, sid);
    assert RowsOk(w, sid);
  }

  /** A failed saga left nothing if and only if its first step never committed or a compensation of it did. */
  lemma FailedLeavesNothingIff(t0: Tables, es: seq<Event<Payload>>, w: GroupWorld, sid: int)
    requires Leads(DEFS, Fresh(t0), es, w) && (forall e :: e in es ==> FromCreateGroup(e))
    requires sid in w.log && w.log[sid].state == Failed
    ensures NoRows(w.tables, w.log[sid].payload.groupId) <==> !StepIn(es, sid) || UndoIn(es, sid)
  {
    GroupCreateOutcome(t0, es, w, sid);
    EventsTell(DEFS, t0, es, w, sid);
  }

  /** The restore theorem of the coordinator for this saga: if every compensation commits, the rows are those from
      before it started. */
  lemma GroupFailureRestores(w: GroupWorld, w': GroupWorld, sid: int, env: Env, t: Tables, p: Payload, earlier: seq<nat>,
                             choices: seq<nat>, fault: Fault, undo: seq<nat>, es: seq<Event<Payload>>)
    requires sid in w.log && sid in w'.log && w'.log[sid].sagaType == "group_create"
    requires Ran(DEFS, sid, w, w', env, false, choices, fault, Some(undo), es)
    requires |earlier| == w.log[sid].currentStep && RunForward(STEPS, 0, t, p, earlier) == Some((w.tables, w.log[sid].payload))
    ensures SameRows(w'.tables, t)
  {
    GroupStepsReversible();
    FailureLeavesNothing(DEFS, sid, w, w', env, t, p, earlier, choices, fault, undo, es, SameRows, KeepsIds);
  }

  lemma UpToFailedOwner() returns (es: seq<Event<Payload>>, w: GroupWorld)
    ensures Leads(DEFS, Fresh(Tables(map[], {}, 1)), es, w) && forall e :: e in es ==> FromCreateGroup(e)
    ensures w.log == map[1 := LogRow("group_create", Running, 1, Payload(7, "g", 1))]
    ensures w.tables.groups == map[1 := Group("g", 7)]
    ensures w.running == map[1 := Context("group_create", 1, Payload(7, "g", 1), Failing)]
  {
    var t0: Tables := Tables(map[], {}, 1);
    var w0: GroupWorld := Fresh(t0);
    es, w := [], w0;
    var e := Event.Start(1, "group_create", Payload(7, "g", 0));
    LeadsSnoc(DEFS, w0, es, w, e);
    es, w := es + [e], Next(DEFS, w, e);
    e := Load(1);
    LeadsSnoc(DEFS, w0, es, w, e);
    es, w := es + [e], Next(DEFS, w, e);
    e := CommitStep(1, 1);
    LeadsSnoc(DEFS, w0, es, w, e);
    es, w := es + [e], Next(DEFS, w, e);
    e := FailStep(1, NoConnection);
    LeadsSnoc(DEFS, w0, es, w, e);
    es, w := es + [e], Next(DEFS, w, e);
  }

  lemma UpToPassedOver() returns (es: seq<Event<Payload>>, w: GroupWorld)
    ensures Leads(DEFS, Fresh(Tables(map[], {}, 1)), es, w) && forall e :: e in es ==> FromCreateGroup(e)
    ensures w.log == map[1 := LogRow("group_create", Compensating, 1, Payload(7, "g", 1))]
    ensures w.tables.groups == map[1 := Group("g", 7)]
    ensures w.running == map[1 := Context("group_create", 1, Payload(7, "g", 1), Undoing(-1))]
  {
    var t0: Tables := Tables(map[], {}, 1);
    var w0: GroupWorld := Fresh(t0);
    es, w := UpToFailedOwner();
    var e: Event<Payload> := MarkCompensating(1, true);
    LeadsSnoc(DEFS, w0, es, w, e);
    es, w := es + [e], Next(DEFS, w, e);
    e := SkipUndo(1, NoConnection);
    LeadsSnoc(DEFS, w0, es, w, e);
    es, w := es + [e], Next(DEFS, w, e);
  }

  /** The connection is missing when the group should be deleted again: failed, and the group is still there. */
  lemma FailedWithGroupLeft() returns (es: seq<Event<Payload>>, w: GroupWorld)
    ensures Leads(DEFS, Fresh(Tables(map[], {}, 1)), es, w) && forall e :: e in es ==> FromCreateGroup(e)
    ensures w.log == map[1 := LogRow("group_create", Failed, 1, Payload(7, "g", 1))]
    ensures w.tables.groups == map[1 := Group("g", 7)]
  {
    var t0: Tables := Tables(map[], {}, 1);
    es, w := UpToPassedOver();
    var e: Event<Payload> := Close(1, true);
    LeadsSnoc(DEFS, Fresh(t0), es, w, e);
    es, w := es + [e], Next(DEFS, w, e);
  }

  /** done means group and owner membership both exist, even if the saga crashed while compensating and was resumed.
      Nothing of the saga is left in the tables exactly if it never got past step 0 or its step 0 was undone. */
  lemma GroupCreateOutcome(t0: Tables, es: seq<Event<Payload>>, w: GroupWorld, sid: int)
    requires Leads(DEFS, Fresh(t0), es, w) && (forall e :: e in es ==> FromCreateGroup(e)) && sid in w.log
    ensures var row := w.log[sid];
            var p := row.payload;
            && (row.state == Done ==>
                  && p.groupId in w.tables.groups && w.tables.groups[p.groupId] == Group(p.name, p.owner)
                  && (p.groupId, p.owner) in w.tables.members)
            && (NoRows(w.tables, p.groupId) <==> row.currentStep == 0 || HasUndo(w.history, sid))
  {
    RunKeepsGroupInv(t0, Fresh(t0), es, w);
    assert SagaOk(DEFS, t0, w, sid) && RowsOk(w, sid);
  }

  // ----- two executors -----

  /** A second executor inserts a second group whenever the database lets it; it never inserts a second membership. */
  lemma SecondGroupCommitIff(w: GroupWorld, sid: int, c: nat, c': nat)
    requires Enabled(DEFS, w, CommitStep(sid, c)) && w.running[sid].sagaType == "group_create"
    ensures var w' := Next(DEFS, w, CommitStep(sid, c));
            Enabled(DEFS, w'.(running := w.running), CommitStep(sid, c')) <==> w.running[sid].step == 0 && c' != 0
  {
    SecondCommitIff(DEFS, w, sid, c, c');
  }

  /** Both processes load the new saga and commit step 0: two groups, and the saga knows only the second. */
  lemma TwoExecutorsTwoGroups() returns (w: GroupWorld)
    ensures Leads(DEFS, Fresh(Tables(map[], {}, 1)), [Event.Start(1, "group_create", Payload(7, "g", 0)), Load(1)], w)
    ensures Enabled(DEFS, w, CommitStep(1, 1))
    ensures var other := Next(DEFS, w, CommitStep(1, 1)).(running := w.running);
            && Enabled(DEFS, other, CommitStep(1, 1))
            && Next(DEFS, other, CommitStep(1, 1)).tables.groups == map[1 := Group("g", 7), 2 := Group("g", 7)]
            && Next(DEFS, other, CommitStep(1, 1)).log == map[1 := LogRow("group_create", Running, 1, Payload(7, "g", 2))]
  {
    w := NewSagaLoaded();
    SecondGroupCommitIff(w, 1, 1, 1);
  }

  lemma NewSagaLoaded() returns (w: GroupWorld)
    ensures Leads(DEFS, Fresh(Tables(map[], {}, 1)), [Event.Start(1, "group_create", Payload(7, "g", 0)), Load(1)], w)
    ensures w.tables == Tables(map[], {}, 1) && w.log == map[1 := LogRow("group_create", Running, 0, Payload(7, "g", 0))]
    ensures w.running == map[1 := Context("group_create", 0, Payload(7, "g", 0), Forward)]
  {
    var t0: Tables := Tables(map[], {}, 1);
    var w0: GroupWorld := Fresh(t0);
    var e0 := Event.Start(1, "group_create", Payload(7, "g", 0));
    var w1 := Next(DEFS, w0, e0);
    w := Next(DEFS, w1, Load(1));
    LeadsOne(DEFS, w0, e0);
    LeadsSnoc(DEFS, w0, [e0], w1, Load(1));
    assert [e0] + [Load(1)] == [e0, Load(1)];
  }
}
