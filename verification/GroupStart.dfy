/** What a group has to do with the request that started its saga. */
module GroupStart {
  import opened Options
  import opened Saga
  import opened GroupSaga

  /** The saga still carries the name and the owner it started with, and got past step 0 only if both are given. */
  ghost predicate CarriesStart(w: GroupWorld, sid: int, start: Payload) {
    && sid in w.log && w.log[sid].payload.name == start.name && w.log[sid].payload.owner == start.owner
    && (w.log[sid].currentStep > 0 ==> start.name != "" && start.owner != 0)
  }

  lemma StepCarries(t0: Tables, w: GroupWorld, e: Event<Payload>, sid: int, start: Payload)
    requires GroupInv(t0, w) && Enabled(DEFS, w, e) && CarriesStart(w, sid, start)
    ensures CarriesStart(Next(DEFS, w, e), sid, start)
  {
    if e.CommitStep? && e.sid == sid {
      assert ContextOk(DEFS, w, sid) && SagaOk(DEFS, t0, w, sid);
    }
  }

  lemma {:induction false} RunCarries(t0: Tables, w: GroupWorld, es: seq<Event<Payload>>, w': GroupWorld, sid: int, start: Payload)
    requires GroupInv(t0, w) && Leads(DEFS, w, es, w') && CarriesStart(w, sid, start) && forall e :: e in es ==> FromCreateGroup(e)
    ensures CarriesStart(w', sid, start)
    decreases |es|
  {
    if es != [] {
      assert es[0] in es;
      StepCarries(t0, w, es[0], sid, start);
      StepKeepsGroupInv(t0, w, es[0]);
      RunCarries(t0, Next(DEFS, w, es[0]), es[1..], w', sid, start);
    }
  }

  lemma {:induction false} CarriesItsStart(t0: Tables, w: GroupWorld, es: seq<Event<Payload>>, w': GroupWorld, i: nat)
    requires GroupInv(t0, w) && Leads(DEFS, w, es, w') && (forall e :: e in es ==> FromCreateGroup(e))
    requires i < |es| && es[i].Start?
    ensures CarriesStart(w', es[i].sid, es[i].payload)
    decreases |es|
  {
    assert es[0] in es;
    StepKeepsGroupInv(t0, w, es[0]);
    var next := Next(DEFS, w, es[0]);
    if i == 0 {
      RunCarries(t0, next, es[1..], w', es[0].sid, es[0].payload);
    } else {
      CarriesItsStart(t0, next, es[1..], w', i - 1);
    }
  }

  /** In every run: once a group creation is done, there is a group with the name and the owner it was started with, and that
      owner is a member. Without a name or an owner it never gets past its first step and leaves no row. */
  lemma GroupIsAsRequested(t0: Tables, es: seq<Event<Payload>>, w: GroupWorld, i: nat)
    requires Leads(DEFS, Fresh(t0), es, w) && (forall e :: e in es ==> FromCreateGroup(e)) && i < |es| && es[i].Start?
    ensures es[i].sid in w.log
    ensures var row, name, owner := w.log[es[i].sid], es[i].payload.name, es[i].payload.owner;
            var id := row.payload.groupId;
            && (row.state == Done ==>
                  && id in w.tables.groups && w.tables.groups[id].name == name && w.tables.groups[id].owner == owner
                  && (id, owner) in w.tables.members)
            && (name == "" || owner == 0 ==> row.currentStep == 0 && row.state != Done && NoRows(w.tables, id))
  {
    CarriesItsStart(t0, Fresh(t0), es, w, i);
    GroupCreateOutcome(t0, es, w, es[i].sid);
    RunKeepsInv(DEFS, t0, Fresh(t0), es, w);
    assert SagaOk(DEFS, t0, w, es[i].sid);
  }
}
