/** What the editor protocol guarantees on every run, and what it does not. */
module EditorGuarantees {
  import opened Options
  import opened Editor
  import opened EditorProtocol
  import opened EditorSafety

  // ----- the revision store -----

  /** Accepted revisions form one chain: it starts at the only revision without a
      parent, each revision names the previous one, and nothing lies beside it. */
  lemma RevisionsFormOneChain(env: Environment, w: World)
    requires Reachable(env, w)
    ensures w.history != []
    ensures forall id :: id in w.revisions <==> id in w.history
    ensures forall i, j | 0 <= i < j < |w.history| :: w.history[i] != w.history[j]
    ensures w.revisions[w.history[0]].parent == None
    ensures forall i | 0 < i < |w.history| :: w.revisions[w.history[i]].parent == Some(w.history[i - 1])
  {
    InvReachable(env, w);
    forall i | 0 < i < |w.history| ensures w.revisions[w.history[i]].parent == Some(w.history[i - 1]) {
      assert SaveOk(w.revisions, w.history[i - 1], w.history[i], w.saves[i - 1]);
    }
  }

  /** Compare-and-swap on content: the base of the editor that sent the save which
      became revision i + 1 was exactly the content of revision i. What it saved
      may still have been authored elsewhere, see LateAnswerOverwritesHead. */
  lemma SavesReplaceTheirBase(env: Environment, w: World, i: nat)
    requires Reachable(env, w) && i + 1 < |w.history|
    ensures |w.saves| == |w.history| - 1
    ensures w.history[i] in w.revisions && w.saves[i].senderBase == w.revisions[w.history[i]].content
    ensures w.history[i + 1] in w.revisions && w.saves[i].content == w.revisions[w.history[i + 1]].content
  {
    InvReachable(env, w);
    assert SaveOk(w.revisions, w.history[i], w.history[i + 1], w.saves[i]);
  }

  // ----- one editor -----

  /** In every reachable state of every editor: the base is the stored content of
      its revision, a clean editor shows its base, and the source hash is that of
      what is shown unless the last change of what is shown was a reapply. */
  lemma EditorsStayConsistent(env: Environment, w: World, c: ClientId)
    requires Reachable(env, w) && c in w.clients
    ensures
      var s := w.clients[c];
      && s.revisionId in w.revisions
      && w.revisions[s.revisionId].content == s.base
      && (!s.dirty ==> s.canonical == s.base)
      && (c !in w.reapplied ==> s.sourceHash == env.hash(s.canonical))
      && (c in w.reapplied ==> s.dirty && s.sourceHash == env.hash(s.base))
  {
    InvReachable(env, w);
    assert StateOk(env, w.revisions, c in w.reapplied, w.clients[c]);
  }

  /** After a reapply the authoring service can accept the next operation only
      when the merge did not change the hash: otherwise it answers with an error. */
  lemma ReappliedAuthoring(env: Environment, w: World, c: ClientId, d: Direction, strategy: Strategy)
    requires Reachable(env, w) && c in w.reapplied && Enabled(env, w, PressAuthoring(c, d))
    ensures
      var next := Do(env, w, PressAuthoring(c, d));
      Enabled(env, next, AuthoringReply(w.issued, Some(strategy))) <==>
      env.hash(w.clients[c].canonical) == env.hash(w.clients[c].base)
  {
    InvReachable(env, w);
    assert StateOk(env, w.revisions, c in w.reapplied, w.clients[c]);
  }

  /** Of two numbered requests of one editor, at most one has the current number. */
  lemma TicketsDiffer(env: Environment, w: World, i: RequestId, j: RequestId)
    requires Reachable(env, w) && i in w.pending && j in w.pending && i != j
    requires Ticket(w.pending[i]).Some? && Ticket(w.pending[j]).Some?
    requires w.pending[i].at.client == w.pending[j].at.client
    ensures w.pending[i].at.client in w.clients
    ensures
      var current := w.clients[w.pending[i].at.client].sequence;
      Ticket(w.pending[i]).value.1 < current || Ticket(w.pending[j]).value.1 < current
  {
    InvReachable(env, w);
    TicketHolder(w.pending[i]);
    TicketHolder(w.pending[j]);
    OneLiveTicket(w.clients, w.pending, i, j);
  }

  lemma TicketHolder(p: Pending)
    ensures Ticket(p).Some? ==> Ticket(p).value.0 == p.at.client
  {
  }

  lemma OneLiveTicket(clients: map<ClientId, State>, pending: map<RequestId, Pending>, i: RequestId, j: RequestId)
    requires TicketsOk(clients, pending) && i in pending && j in pending && i != j
    requires Ticket(pending[i]).Some? && Ticket(pending[j]).Some?
    requires Ticket(pending[i]).value.0 == Ticket(pending[j]).value.0
    ensures TicketIssued(clients, Ticket(pending[i]).value) && TicketIssued(clients, Ticket(pending[j]).value)
    ensures Ticket(pending[i]).value.1 != Ticket(pending[j]).value.1
  {
    assert Ticket(pending[i]) != Ticket(pending[j]);
  }

  // ----- quick tests -----

  /** Every executed quick test ran a stored revision whose content is exactly
      what the editor showed when Run was pressed. */
  lemma QuickTestsRunWhatWasShown(env: Environment, w: World, run: RequestId)
    requires Reachable(env, w) && run in w.executions
    ensures
      var e := w.executions[run];
      e.revisionId in w.revisions && w.revisions[e.revisionId].content == e.shown
  {
    InvReachable(env, w);
    assert Stored(w.revisions, w.executions[run].revisionId, w.executions[run].shown);
  }

  lemma PressKeepsDecisions(env: Environment, w: World, step: Step)
    requires Enabled(env, w, step) && IsPress(step)
    ensures DoPress(env, w, step).failedRuns == w.failedRuns
    ensures DoPress(env, w, step).executions == w.executions
  {
  }

  lemma DeliverKeepsFailures(env: Environment, w: World, id: RequestId)
    requires Enabled(env, w, Deliver(id))
    ensures w.failedRuns <= DoDeliver(env, w, id).failedRuns
  {
  }

  lemma StepKeepsFailures(env: Environment, w: World, step: Step)
    requires Enabled(env, w, step)
    ensures w.failedRuns <= Do(env, w, step).failedRuns
  {
    if IsPress(step) {
      PressKeepsDecisions(env, w, step);
    } else {
      match step
      case Deliver(id) => DeliverKeepsFailures(env, w, id);
      case LoseConnection(id) => assert w.failedRuns <= DoLoseConnection(w, id).failedRuns;
      case HeadUnavailable(id) => assert w.failedRuns <= DoHeadUnavailable(env, w, id).failedRuns;
      case AuthoringReply(id, strategy) => assert w.failedRuns <= DoAuthoringReply(env, w, id, strategy).failedRuns;
      case ServerSave(id, newId) => assert w.failedRuns <= DoServerSave(env, w, id, newId).failedRuns;
      case _ =>
    }
  }

  lemma {:induction false} RunsKeepFailures(env: Environment, w: World, steps: seq<Step>, last: World)
    requires Runs(env, w, steps, last)
    ensures w.failedRuns <= last.failedRuns
    decreases |steps|
  {
    if steps != [] {
      StepKeepsFailures(env, w, steps[0]);
      RunsKeepFailures(env, Do(env, w, steps[0]), steps[1..], last);
    }
  }

  lemma {:induction false} RunsCompose(env: Environment, a: World, first: seq<Step>, b: World, second: seq<Step>,
                                       c: World)
    requires Runs(env, a, first, b) && Runs(env, b, second, c)
    ensures Runs(env, a, first + second, c)
    decreases |first|
  {
    if first == [] {
      assert first + second == second;
    } else {
      RunsCompose(env, Do(env, a, first[0]), first[1..], b, second, c);
      assert (first + second)[1..] == first[1..] + second;
    }
  }

  lemma ReachableLater(env: Environment, w: World, steps: seq<Step>, later: World)
    requires Reachable(env, w) && Runs(env, w, steps, later)
    ensures Reachable(env, later)
  {
    var id, content, before :| Runs(env, Initial(env, id, content), before, w);
    RunsCompose(env, Initial(env, id, content), before, w, steps, later);
  }

  /** A quick test whose preflight, save or conflict handling failed never executes. */
  lemma FailedTestsNeverExecute(env: Environment, w: World, run: RequestId, steps: seq<Step>, later: World)
    requires Reachable(env, w) && run in w.failedRuns && Runs(env, w, steps, later)
    ensures run !in later.executions
  {
    RunsKeepFailures(env, w, steps, later);
    ReachableLater(env, w, steps, later);
    InvReachable(env, later);
  }

  // ----- what is not guaranteed -----

  /** The reply to an accepted save leaves what the editor shows unchanged exactly
      when the editor still shows what it showed when Save was pressed. */
  lemma SaveKeepsWorkIff(env: Environment, w: World, save: RequestId, r: Revision)
    requires Reachable(env, w) && Enabled(env, w, Deliver(save))
    requires w.pending[save].Saving? && w.pending[save].stage == Answered(Accepted(r))
    ensures
      var at := w.pending[save].at;
      && at.client in w.clients && at.client in Do(env, w, Deliver(save)).clients
      && (Do(env, w, Deliver(save)).clients[at.client].canonical == w.clients[at.client].canonical <==>
          w.clients[at.client].canonical == at.state.canonical)
  {
    InvReachable(env, w);
    assert PendingOk(w.revisions, w.pending[save]);
    assert StageOk(w.revisions, w.pending[save].at.state.canonical, w.pending[save].stage);
  }

  /** Delivering the save leaves editor c clean, showing the saved strategy, with
      the edit in no part of it. */
  ghost predicate LeavesBehind(env: Environment, w: World, save: RequestId, c: ClientId, saved: Strategy,
                               edit: Strategy) {
    && Enabled(env, w, Deliver(save)) && c in Do(env, w, Deliver(save)).clients
    && var s := Do(env, w, Deliver(save)).clients[c];
    s.canonical == s.base == saved && !s.dirty && edit !in s.undo && edit !in s.redo
  }

  /** Authoring is not held back while a save is in flight. An editor c that shows
      s1 saves it, then applies an edit that answers s2; when the reply to the
      save arrives last, s2 is in no part of the editor any more, which calls
      itself clean. */
  lemma LateSaveLosesEdit(env: Environment, w: World, c: ClientId, newId: RevisionId, s2: Strategy)
    returns (later: World, save: RequestId)
    requires Reachable(env, w) && EditedOnHead(w, c) && c !in w.reapplied && newId !in w.revisions
    requires s2 != w.clients[c].canonical && s2 !in w.clients[c].undo
    ensures Reachable(env, later) && Enabled(env, later, Deliver(save)) && c in later.clients
    ensures later.clients[c].canonical == s2 && later.clients[c].dirty
    ensures LeavesBehind(env, later, save, c, w.clients[c].canonical, s2)
  {
    var at, r;
    later, save, at, r := EditDuringSave(env, w, c, newId, s2);
    SaveDelivered(env, later, save, at, r);
  }

  lemma EditDuringSave(env: Environment, w: World, c: ClientId, newId: RevisionId, s2: Strategy)
    returns (later: World, save: RequestId, at: Captured, r: Revision)
    requires Reachable(env, w) && EditedOnHead(w, c) && c !in w.reapplied && newId !in w.revisions
    ensures Reachable(env, later) && at.client == c && r.content == w.clients[c].canonical
    ensures save in later.pending && later.pending[save] == Saving(at, Answered(Accepted(r)), false)
    ensures EditShown(later, c, s2, w.clients[c].undo + [w.clients[c].canonical])
  {
    save, at := w.issued, Captured(c, w.clients[c]);
    var w2 := SaveThenEdit(env, w, c);
    var w3;
    w3, r := AcceptWhileEditing(env, w2, save, newId, at);
    later := AnswerEdit(env, w3, save, at, r, s2);
  }

  /** Editor c shows s, not saved, with this undo history. */
  predicate EditShown(w: World, c: ClientId, s: Strategy, undo: seq<Strategy>) {
    c in w.clients && w.clients[c].canonical == s && w.clients[c].dirty && w.clients[c].undo == undo
        && w.clients[c].redo == []
  }

  lemma ReachableStep(env: Environment, w: World, step: Step)
    requires Reachable(env, w) && Enabled(env, w, step)
    ensures Reachable(env, Do(env, w, step))
  {
    var next := Do(env, w, step);
    assert [step][1..] == [] && Runs(env, next, [], next);
    ReachableLater(env, w, [step], next);
  }

  lemma ReachPressSave(env: Environment, w: World, c: ClientId)
    requires Reachable(env, w) && c in w.clients
    ensures Reachable(env, DoPressSave(w, c))
  {
    ReachableStep(env, w, PressSave(c));
  }

  lemma ReachPressApply(env: Environment, w: World, c: ClientId)
    requires Reachable(env, w) && c in w.clients
    ensures Reachable(env, DoPressAuthoring(w, c, Apply))
  {
    ReachableStep(env, w, PressAuthoring(c, Apply));
  }

  lemma ReachServerSave(env: Environment, w: World, id: RequestId, newId: RevisionId)
    requires Reachable(env, w) && Enabled(env, w, ServerSave(id, newId))
    ensures Reachable(env, DoServerSave(env, w, id, newId))
  {
    ReachableStep(env, w, ServerSave(id, newId));
  }

  /** The editor pressed Save in state s, then issued an edit: both are under way. */
  ghost predicate Overlapping(env: Environment, w: World, save: RequestId, at: Captured, stage: Stage) {
    var s := at.state;
    && save in w.pending && w.pending[save] == Saving(at, stage, false)
    && save + 1 in w.pending
    && w.pending[save + 1] == Authoring(Captured(at.client, s.(status := Updating)), s.sequence + 1, Apply)
    && s.sourceHash == env.hash(s.canonical)
    && at.client in w.clients && w.clients[at.client] == s.(sequence := s.sequence + 1, status := Updating)
  }

  predicate ParentIsHead(w: World, s: State) {
    && w.history != [] && Head(w) in w.revisions
    && s.revisionId == Head(w) && w.revisions[Head(w)].content != s.canonical
  }

  lemma SaveThenEdit(env: Environment, w: World, c: ClientId) returns (w2: World)
    requires Reachable(env, w) && EditedOnHead(w, c) && c !in w.reapplied
    ensures Reachable(env, w2) && Overlapping(env, w2, w.issued, Captured(c, w.clients[c]), Sent)
    ensures ParentIsHead(w2, w.clients[c]) && w2.revisions == w.revisions
  {
    EditedFacts(env, w, c);
    ReachPressSave(env, w, c);
    var w1 := DoPressSave(w, c);
    ReachPressApply(env, w1, c);
    w2 := DoPressAuthoring(w1, c, Apply);
    SaveThenEditEffect(env, w, c, w1, w2);
  }

  lemma EditedFacts(env: Environment, w: World, c: ClientId)
    requires Reachable(env, w) && EditedOnHead(w, c) && c !in w.reapplied
    ensures w.clients[c].sourceHash == env.hash(w.clients[c].canonical)
    ensures Head(w) in w.revisions && w.revisions[Head(w)].content == w.clients[c].base
  {
    InvReachable(env, w);
    assert StateOk(env, w.revisions, false, w.clients[c]);
  }

  lemma SaveThenEditEffect(env: Environment, w: World, c: ClientId, w1: World, w2: World)
    requires EditedOnHead(w, c) && w.clients[c].sourceHash == env.hash(w.clients[c].canonical)
    requires Head(w) in w.revisions && w.revisions[Head(w)].content == w.clients[c].base
    requires w1 == DoPressSave(w, c) && w2 == DoPressAuthoring(w1, c, Apply)
    ensures Overlapping(env, w2, w.issued, Captured(c, w.clients[c]), Sent)
    ensures ParentIsHead(w2, w.clients[c]) && w2.revisions == w.revisions
  {
  }

  lemma AnswerEdit(env: Environment, w: World, save: RequestId, at: Captured, r: Revision, s2: Strategy)
    returns (w': World)
    requires Reachable(env, w) && Overlapping(env, w, save, at, Answered(Accepted(r)))
    ensures Reachable(env, w')
    ensures save in w'.pending && w'.pending[save] == Saving(at, Answered(Accepted(r)), false)
    ensures EditShown(w', at.client, s2, at.state.undo + [at.state.canonical])
  {
    ReachableStep(env, w, AuthoringReply(save + 1, Some(s2)));
    w' := DoAuthoringReply(env, w, save + 1, Some(s2));
  }

  lemma SaveDelivered(env: Environment, w: World, id: RequestId, at: Captured, r: Revision)
    requires id in w.pending && w.pending[id] == Saving(at, Answered(Accepted(r)), false)
    requires at.client in w.clients
    ensures Enabled(env, w, Deliver(id))
    ensures Do(env, w, Deliver(id)).clients == w.clients[at.client := WithRevision(w.clients[at.client], r)]
  {
  }

  /** Editor c shows unsaved edits of the head revision. */
  predicate EditedOnHead(w: World, c: ClientId) {
    && c in w.clients && w.history != []
    && w.clients[c].dirty && w.clients[c].status == Saved
    && w.clients[c].revisionId == Head(w)
    && w.clients[c].canonical != w.clients[c].base
  }

  lemma AcceptWhileEditing(env: Environment, w: World, save: RequestId, newId: RevisionId, at: Captured)
    returns (w': World, r: Revision)
    requires Reachable(env, w) && Overlapping(env, w, save, at, Sent)
    requires ParentIsHead(w, at.state) && newId !in w.revisions
    ensures Reachable(env, w') && Overlapping(env, w', save, at, Answered(Accepted(r)))
    ensures r.content == at.state.canonical
  {
    ReachServerSave(env, w, save, newId);
    w' := DoServerSave(env, w, save, newId);
    r := Revision(newId, Some(Head(w)), at.state.canonical, env.hash(at.state.canonical));
  }

  /** Such editors exist: one opens the store, and its first edit is answered. */
  lemma EditedEditorExists(env: Environment, content: Strategy, s1: Strategy) returns (w: World)
    requires s1 != content
    ensures Reachable(env, w) && EditedOnHead(w, 0) && 0 !in w.reapplied && w.clients[0].undo == [content]
    ensures w.history == ["a"] && w.revisions == map["a" := Revision("a", None, content, env.hash(content))]
    ensures w.clients.Keys == {0} && w.clients[0].canonical == s1
  {
    var w0 := Initial(env, "a", content);
    assert Runs(env, w0, [], w0);
    ReachableStep(env, w0, Open(0, "a"));
    var w1 := Put(w0, 0, Opened(w0.revisions["a"]));
    ReachPressApply(env, w1, 0);
    var w2 := DoPressAuthoring(w1, 0, Apply);
    FirstEdit(env, w1, w2, s1);
    ReachableStep(env, w2, AuthoringReply(0, Some(s1)));
    w := DoAuthoringReply(env, w2, 0, Some(s1));
  }

  lemma FirstEdit(env: Environment, w1: World, w2: World, s1: Strategy)
    requires w1.history != [] && 0 in w1.clients && w1.pending == map[] && w1.issued == 0
    requires w1.clients[0].sourceHash == env.hash(w1.clients[0].canonical)
    requires w1.clients[0].revisionId == Head(w1) && s1 != w1.clients[0].base
    requires w2 == DoPressAuthoring(w1, 0, Apply)
    ensures Enabled(env, w2, AuthoringReply(0, Some(s1)))
    ensures
      var w := DoAuthoringReply(env, w2, 0, Some(s1));
      EditedOnHead(w, 0) && w.reapplied == w1.reapplied - {0}
      && w.revisions == w1.revisions && w.history == w1.history
      && w.clients.Keys == w1.clients.Keys && w.clients[0].canonical == s1
      && w.clients[0].undo == w1.clients[0].undo + [w1.clients[0].canonical]
  {
  }
}
