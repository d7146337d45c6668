/** Any number of group creations interleaved: each runs as if it were alone. */
module GroupAlone {
  import opened Options
  import opened Saga
  import opened SagaParts
  import opened GroupSaga

  function MembersOf(t: Tables, groupId: int): set<(int, int)> {
    set m | m in t.members && m.0 == groupId
  }

  /** The group the payload names is the same in both, row and members; ids run ahead where others insert groups. */
  predicate Alike(lone: Tables, t: Tables, p: Payload) {
    && lone.nextId <= t.nextId
    && (p.groupId in lone.groups <==> p.groupId in t.groups)
    && (p.groupId in t.groups ==> lone.groups[p.groupId] == t.groups[p.groupId])
    && MembersOf(lone, p.groupId) == MembersOf(t, p.groupId)
  }

  lemma NoMembersYet(t: Tables, id: int)
    requires id >= t.nextId
    ensures id !in t.groups && MembersOf(t, id) == {}
  {
    assert SchemaOk(t);
  }

  lemma InsertGroupFollows(lone: Tables, t: Tables, p: Payload, c: nat)
    requires Alike(lone, t, p) && InsertGroup(t, p, c).StepOk?
    ensures FollowsBy(STEPS[0], Alike, lone, t, p, c, t.nextId + c - lone.nextId)
  {
    var id, c' := t.nextId + c - 1, t.nextId + c - lone.nextId;
    NoMembersYet(t, id);
    NoMembersYet(lone, id);
    var r, r' := InsertGroup(t, p, c), InsertGroup(lone, p, c');
    assert MembersOf(r.tables, id) == MembersOf(t, id) && MembersOf(r'.tables, id) == MembersOf(lone, id);
  }

  lemma InsertOwnerFollows(lone: Tables, t: Tables, p: Payload, c: nat)
    requires Alike(lone, t, p) && InsertOwner(t, p, c).StepOk?
    ensures FollowsBy(STEPS[1], Alike, lone, t, p, c, c)
  {
    var m, g := (p.groupId, p.owner), p.groupId;
    assert m in lone.members <==> m in MembersOf(lone, g);
    assert m in t.members <==> m in MembersOf(t, g);
    var r, r' := InsertOwner(t, p, c), InsertOwner(lone, p, c);
    assert MembersOf(r.tables, g) == MembersOf(t, g) + {m} && MembersOf(r'.tables, g) == MembersOf(lone, g) + {m};
  }

  lemma GroupFollows()
    ensures Follows(STEPS, Alike)
  {
    forall i: nat, lone: Tables, t: Tables, p: Payload, c: nat | i < |STEPS| && Alike(lone, t, p) && STEPS[i].forward(t, p, c).StepOk?
      ensures CanFollow(STEPS[i], Alike, lone, t, p, c)
    {
      if i == 0 {
        InsertGroupFollows(lone, t, p, c);
      } else {
        InsertOwnerFollows(lone, t, p, c);
      }
    }
  }

  /** Tables that agree on the group, and whose ids did not go back. */
  ghost predicate SameGroup(t: Tables, t': Tables, g: int) {
    && t.nextId <= t'.nextId
    && (g in t.groups <==> g in t'.groups) && (g in t.groups ==> t'.groups[g] == t.groups[g])
    && MembersOf(t', g) == MembersOf(t, g)
  }

  /** The commits of other group creations touch other groups. */
  lemma OthersLeaveAlike(t0: Tables, w: GroupWorld, e: Event<Payload>, sid: int)
    requires GroupInv(t0, w) && Enabled(DEFS, w, e) && sid in w.log && (e.CommitStep? || e.CommitUndo?) && e.sid != sid
    ensures LeavesAlike(DEFS, w, e, sid, Alike)
  {
    assert RowsOk(w, sid) && RowsOk(w, e.sid) && Apart(w, sid, e.sid);
    assert ContextOk(DEFS, w, e.sid) && SagaOk(DEFS, t0, w, e.sid) && MemoryOk(w, e.sid);
    OthersKeepGroup(w, e, w.log[sid].payload.groupId);
  }

  lemma OthersKeepGroup(w: GroupWorld, e: Event<Payload>, g: int)
    requires Enabled(DEFS, w, e) && (e.CommitStep? || e.CommitUndo?) && w.running[e.sid].sagaType == "group_create"
    requires 0 <= g < w.tables.nextId && (w.running[e.sid].payload.groupId == g ==> g == 0)
    ensures SameGroup(w.tables, Next(DEFS, w, e).tables, g)
  {
    var t, t' := w.tables, Next(DEFS, w, e).tables;
    assert SchemaOk(t);
    assert MembersOf(t', g) == MembersOf(t, g);
  }

  /** Every run of group creations is considerate towards each of them that it does not compensate. */
  lemma {:induction false} GroupRunIsConsiderate(t0: Tables, w: GroupWorld, es: seq<Event<Payload>>, w': GroupWorld, sid: int)
    requires GroupInv(t0, w) && Leads(DEFS, w, es, w') && sid in w.log
    requires forall e :: e in es ==> FromCreateGroup(e) && !(e.CommitUndo? && e.sid == sid)
    ensures ConsiderateRun(DEFS, w, es, w', sid, Alike)
    decreases |es|
  {
    if es != [] {
      var e := es[0];
      assert e in es;
      if (e.CommitStep? || e.CommitUndo?) && e.sid != sid {
        OthersLeaveAlike(t0, w, e, sid);
      }
      StepKeepsGroupInv(t0, w, e);
      GroupRunIsConsiderate(t0, Next(DEFS, w, e), es[1..], w', sid);
    }
  }

  /** A group creation that is not compensated, whatever other group creations commit before and in between: its steps so
      far, run alone from the tables at its beginning with some choices of ids, give its payload, its group and its members. */
  lemma GroupAsIfAlone(t0: Tables, before: seq<Event<Payload>>, w0: GroupWorld, sid: int, p: Payload, es: seq<Event<Payload>>, w: GroupWorld)
    returns (choices: seq<nat>)
    requires Leads(DEFS, Fresh(t0), before, w0) && Enabled(DEFS, w0, Event.Start(sid, "group_create", p)) && p.groupId == 0
    requires Leads(DEFS, Next(DEFS, w0, Event.Start(sid, "group_create", p)), es, w)
    requires (forall e :: e in before ==> FromCreateGroup(e)) && forall e :: e in es ==> FromCreateGroup(e) && !(e.CommitUndo? && e.sid == sid)
    ensures AsIfAlone(DEFS, w, sid, Alike, w0.tables, p, choices)
  {
    var e := Event.Start(sid, "group_create", p);
    RunKeepsGroupInv(t0, Fresh(t0), before, w0);
    StepKeepsGroupInv(t0, w0, e);
    GroupRunIsConsiderate(t0, Next(DEFS, w0, e), es, w, sid);
    GroupFollows();
    choices := InterleavedFirstSteps(DEFS, t0, before, w0, sid, "group_create", p, es, w, Alike);
  }
}
