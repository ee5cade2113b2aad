/** Late answers: which of them still reach an editor, and what they can do to it. */
module EditorRaces {
  import opened Options
  import opened Editor
  import opened EditorProtocol
  import opened EditorSafety
  import opened EditorGuarantees
  import opened EditorOrigins

  // ----- superseded requests -----

  /** The editor has issued a newer number than this request carries. */
  predicate Superseded(w: World, id: RequestId) {
    && id in w.pending && Ticket(w.pending[id]).Some?
    && w.pending[id].at.client in w.clients
    && Ticket(w.pending[id]).value.1 < w.clients[w.pending[id].at.client].sequence
  }

  /** A prepared save that was answered as stale goes on to load the head, and
      looks at the counter no more. */
  predicate PastStale(p: Pending) {
    p.PrepareSaving? && (p.stage.LoadingHead? || p.stage.HeadLoaded?)
  }

  /** What the next answer does to the editor then. */
  function LateEffect(env: Environment, p: Pending, step: Step, s: State): State {
    if step.Deliver? && p.PrepareSaving? && p.stage.HeadLoaded?
    then WithConflict(s, ConflictWith(env, p.at, p.stage.head))
    else if step.HeadUnavailable? then s.(status := Invalid)
    else s
  }

  /** The steps in which request id is answered or fails. */
  predicate IsAnswer(env: Environment, w: World, step: Step, id: RequestId) {
    Enabled(env, w, step) && !IsPress(step) && step.request == id
  }

  lemma SupersededPrepared(env: Environment, w: World, id: RequestId)
    requires Superseded(w, id) && w.pending[id].PrepareSaving? && Enabled(env, w, Deliver(id))
    ensures
      var p := w.pending[id];
      var c := p.at.client;
      DoDeliver(env, w, id).clients
        == if PastStale(p) then w.clients[c := LateEffect(env, p, Deliver(id), w.clients[c])] else w.clients
  {
    var c := w.pending[id].at.client;
    assert w.clients == w.clients[c := w.clients[c]];
  }

  lemma SupersededFailure(w: World, id: RequestId)
    requires Superseded(w, id) && w.pending[id].PrepareSaving?
    ensures
      var p := w.pending[id];
      var c := p.at.client;
      SaveFailedAt(w, id, p).clients
        == if p.stage.LoadingHead? then w.clients[c := w.clients[c].(status := Invalid)] else w.clients
  {
    var c := w.pending[id].at.client;
    assert w.clients == w.clients[c := w.clients[c]];
  }

  lemma SupersededAuthoring(env: Environment, w: World, id: RequestId, strategy: Option<Strategy>)
    requires Superseded(w, id) && Enabled(env, w, AuthoringReply(id, strategy))
    ensures DoAuthoringReply(env, w, id, strategy).clients == w.clients
  {
    var c := w.pending[id].at.client;
    assert w.clients == w.clients[c := w.clients[c]];
  }

  /** The whole effect of an answer to a superseded request on all editors: none,
      except that a prepared save past its stale answer still reports on the head. */
  lemma SupersededEffect(env: Environment, w: World, id: RequestId, step: Step)
    requires Superseded(w, id) && IsAnswer(env, w, step, id)
    ensures
      var p := w.pending[id];
      var c := p.at.client;
      Do(env, w, step).clients
        == if PastStale(p) then w.clients[c := LateEffect(env, p, step, w.clients[c])] else w.clients
  {
    var c := w.pending[id].at.client;
    assert w.clients == w.clients[c := w.clients[c]];
    match step
    case AuthoringReply(_, strategy) => SupersededAuthoring(env, w, id, strategy);
    case Deliver(_) => SupersededPrepared(env, w, id);
    case LoseConnection(_) => SupersededFailure(w, id);
    case HeadUnavailable(_) => SupersededFailure(w, id);
    case ServerSave(_, newId) => assert DoServerSave(env, w, id, newId).clients == w.clients;
    case _ =>
  }

  /** In an editor that shows no failure, a superseded request can change nothing
      any more if and only if it is not a prepared save past its stale answer. */
  lemma SupersededIsInertIff(env: Environment, w: World, id: RequestId)
    requires Superseded(w, id) && w.clients[w.pending[id].at.client].status != Invalid
    ensures (forall step | IsAnswer(env, w, step, id) :: Do(env, w, step).clients == w.clients)
        <==> !PastStale(w.pending[id])
  {
    var p := w.pending[id];
    if PastStale(p) {
      var step := if p.stage.LoadingHead? then HeadUnavailable(id) else Deliver(id);
      assert IsAnswer(env, w, step, id);
      SupersededEffect(env, w, id, step);
      assert LateEffect(env, p, step, w.clients[p.at.client]).status == Invalid;
      assert Do(env, w, step).clients[p.at.client] != w.clients[p.at.client];
    } else {
      forall step | IsAnswer(env, w, step, id) ensures Do(env, w, step).clients == w.clients {
        SupersededEffect(env, w, id, step);
      }
    }
  }

  /** Of two numbered requests of one editor, at most one is not superseded. */
  lemma LatestRequestWins(env: Environment, w: World, i: RequestId, j: RequestId)
    requires Reachable(env, w) && i in w.pending && j in w.pending && i != j
    requires Ticket(w.pending[i]).Some? && Ticket(w.pending[j]).Some?
    requires w.pending[i].at.client == w.pending[j].at.client
    ensures Superseded(w, i) || Superseded(w, j)
  {
    TicketsDiffer(env, w, i, j);
  }

  // ----- an editor behind the head -----

  /** Editor c shows unsaved, settled work on a revision that is not the head. */
  predicate BehindHead(w: World, c: ClientId) {
    && c in w.clients && w.history != [] && Head(w) in w.revisions
    && w.clients[c].dirty && w.clients[c].status == Saved && w.clients[c].revisionId != Head(w)
  }

  /** Nothing was stored or reapplied between the two worlds. */
  predicate StoreKept(w: World, w': World) {
    && w'.revisions == w.revisions && w'.history == w.history
    && w'.saves == w.saves && w'.reapplied == w.reapplied
  }

  /** The editor pressed Save in state s and then issued an edit. */
  predicate SaveAndEdit(w: World, c: ClientId, s: State, save: RequestId, stage: Stage) {
    && c in w.clients && w.clients[c] == s.(sequence := s.sequence + 1, status := Updating)
    && save in w.pending && w.pending[save] == Saving(Captured(c, s), stage, false)
    && EditUnderWay(w, c, s, save + 1)
  }

  predicate EditUnderWay(w: World, c: ClientId, s: State, id: RequestId) {
    id in w.pending && w.pending[id] == Authoring(Captured(c, s.(status := Updating)), s.sequence + 1, Apply)
  }

  lemma BeginSaveAndEdit(env: Environment, w: World, c: ClientId) returns (w': World)
    requires Reachable(env, w) && BehindHead(w, c)
    ensures Reachable(env, w') && StoreKept(w, w') && SaveAndEdit(w', c, w.clients[c], w.issued, Sent)
  {
    ReachPressSave(env, w, c);
    var w1 := DoPressSave(w, c);
    ReachPressApply(env, w1, c);
    w' := DoPressAuthoring(w1, c, Apply);
    SaveThenApply(w, c);
  }

  lemma SaveThenApply(w: World, c: ClientId)
    requires BehindHead(w, c)
    ensures
      var w' := DoPressAuthoring(DoPressSave(w, c), c, Apply);
      StoreKept(w, w') && SaveAndEdit(w', c, w.clients[c], w.issued, Sent)
  {
  }

  lemma AnswerStale(env: Environment, w: World, c: ClientId, s: State, save: RequestId, newId: RevisionId)
    returns (w': World)
    requires Reachable(env, w) && SaveAndEdit(w, c, s, save, Sent) && newId !in w.revisions
    requires w.history != [] && Head(w) in w.revisions && s.revisionId != Head(w)
    ensures Reachable(env, w') && StoreKept(w, w') && SaveAndEdit(w', c, s, save, LoadingHead)
  {
    ReachServerSave(env, w, save, newId);
    var w1 := DoServerSave(env, w, save, newId);
    assert SaveAndEdit(w1, c, s, save, Answered(Stale));
    ReachableStep(env, w1, Deliver(save));
    w' := DoDeliver(env, w1, save);
  }

  lemma LoadHead(env: Environment, w: World, c: ClientId, s: State, save: RequestId) returns (w': World)
    requires Reachable(env, w) && SaveAndEdit(w, c, s, save, LoadingHead)
    requires w.history != [] && Head(w) in w.revisions
    ensures Reachable(env, w') && StoreKept(w, w') && SaveAndEdit(w', c, s, save, HeadLoaded(w.revisions[Head(w)]))
  {
    ReachableStep(env, w, ReadHead(save));
    w' := DoReadHead(env, w, save);
  }

  /** The editor shows the conflict with the head, and its edit is still under way. */
  predicate ConflictShown(env: Environment, w: World, c: ClientId, s: State, edit: RequestId, head: Revision) {
    && c in w.clients
    && w.clients[c] == WithConflict(s.(sequence := s.sequence + 1, status := Updating),
                                    ConflictWith(env, Captured(c, s), head))
    && EditUnderWay(w, c, s, edit)
  }

  lemma MeetConflict(env: Environment, w: World, c: ClientId, s: State, save: RequestId, head: Revision)
    returns (w': World)
    requires Reachable(env, w) && SaveAndEdit(w, c, s, save, HeadLoaded(head))
    ensures Reachable(env, w') && StoreKept(w, w') && ConflictShown(env, w', c, s, save + 1, head)
  {
    ReachableStep(env, w, Deliver(save));
    w' := DoDeliver(env, w, save);
  }

  /** An editor behind the head saves, edits on, and is shown the conflict. */
  lemma ReachConflict(env: Environment, w: World, c: ClientId, newId: RevisionId) returns (w': World)
    requires Reachable(env, w) && BehindHead(w, c) && newId !in w.revisions
    ensures Reachable(env, w') && StoreKept(w, w')
    ensures ConflictShown(env, w', c, w.clients[c], w.issued + 1, w.revisions[Head(w)])
  {
    var w1 := BeginSaveAndEdit(env, w, c);
    w' := ConflictAfter(env, w, w1, c, newId);
  }

  lemma ConflictAfter(env: Environment, w: World, w1: World, c: ClientId, newId: RevisionId)
    returns (w': World)
    requires BehindHead(w, c) && newId !in w.revisions
    requires Reachable(env, w1) && StoreKept(w, w1) && SaveAndEdit(w1, c, w.clients[c], w.issued, Sent)
    ensures Reachable(env, w') && StoreKept(w, w')
    ensures ConflictShown(env, w', c, w.clients[c], w.issued + 1, w.revisions[Head(w)])
  {
    SameHead(w, w1);
    w' := ReachConflictFrom(env, w1, c, w.clients[c], w.issued, w.revisions[Head(w)], newId);
    StoreKeptTwice(w, w1, w');
  }

  lemma StoreKeptTwice(w: World, w': World, w'': World)
    requires StoreKept(w, w') && StoreKept(w', w'')
    ensures StoreKept(w, w'')
  {
  }

  lemma SameHead(w: World, w': World)
    requires w.history != [] && Head(w) in w.revisions && StoreKept(w, w')
    ensures w'.history != [] && Head(w') == Head(w) && Head(w') in w'.revisions
    ensures w'.revisions[Head(w')] == w.revisions[Head(w)]
  {
  }

  lemma ReachConflictFrom(env: Environment, w: World, c: ClientId, s: State, save: RequestId, head: Revision,
                          newId: RevisionId)
    returns (w': World)
    requires Reachable(env, w) && SaveAndEdit(w, c, s, save, Sent) && newId !in w.revisions
    requires w.history != [] && Head(w) in w.revisions && s.revisionId != Head(w) && w.revisions[Head(w)] == head
    ensures Reachable(env, w') && StoreKept(w, w') && ConflictShown(env, w', c, s, save + 1, head)
  {
    var w2 := AnswerStale(env, w, c, s, save, newId);
    SameHead(w, w2);
    var w3 := LoadHead(env, w2, c, s, save);
    w' := MeetConflict(env, w3, c, s, save, head);
    StoreKeptTwice(w, w2, w3);
    StoreKeptTwice(w, w3, w');
  }

  // ----- unseen work is overwritten -----

  lemma DiscardConflicted(env: Environment, w: World, c: ClientId, s: State, edit: RequestId, head: Revision)
    returns (w': World)
    requires Reachable(env, w) && ConflictShown(env, w, c, s, edit, head)
    ensures Reachable(env, w') && w'.revisions == w.revisions && w'.history == w.history && w'.saves == w.saves
    ensures c in w'.clients && w'.clients[c].revisionId == head.id
    ensures w'.clients[c].sequence == s.sequence + 1 && w'.clients[c].base == head.content
        && EditUnderWay(w', c, s, edit)
  {
    ReachableStep(env, w, PressDiscard(c));
    w' := DoPressDiscard(w, c);
  }

  lemma AdoptLate(env: Environment, w: World, c: ClientId, s: State, edit: RequestId, z: Strategy) returns (w': World)
    requires Reachable(env, w) && EditUnderWay(w, c, s, edit) && s.sourceHash == env.hash(s.canonical)
    requires c in w.clients && w.clients[c].sequence == s.sequence + 1 && s.revisionId != w.clients[c].revisionId
    ensures Enabled(env, w, AuthoringReply(edit, Some(z))) && AdoptsFromElsewhere(w, AuthoringReply(edit, Some(z)))
    ensures Reachable(env, w') && w'.revisions == w.revisions && w'.history == w.history && w'.saves == w.saves
    ensures c in w'.clients && w'.clients[c].canonical == z && w'.clients[c].dirty && w'.clients[c].status == Saved
    ensures w'.clients[c].revisionId == w.clients[c].revisionId && w'.clients[c].base == w.clients[c].base
  {
    ReachableStep(env, w, AuthoringReply(edit, Some(z)));
    w' := DoAuthoringReply(env, w, edit, Some(z));
  }

  lemma SaveOnHead(env: Environment, w: World, c: ClientId, newId: RevisionId) returns (w': World)
    requires Reachable(env, w) && c in w.clients && w.clients[c].dirty && w.clients[c].status == Saved
    requires w.history != [] && Head(w) in w.revisions && w.clients[c].revisionId == Head(w)
    requires w.revisions[Head(w)].content != w.clients[c].canonical && newId !in w.revisions
    ensures Reachable(env, w')
    ensures w'.saves == w.saves + [AcceptedSave(Head(w), newId, w.clients[c].base, w.clients[c].canonical)]
    ensures w'.history == w.history + [newId]
  {
    ReachPressSave(env, w, c);
    var w1 := DoPressSave(w, c);
    SaveSent(w, c);
    SameHead(w, w1);
    w' := SaveAccepted(env, w1, w.issued, newId);
  }

  lemma HeadKnowsItself(env: Environment, w: World)
    requires Reachable(env, w)
    ensures w.history != [] && Head(w) in w.revisions && w.revisions[Head(w)].id == Head(w)
  {
    InvReachable(env, w);
  }

  lemma EditedHash(env: Environment, w: World, c: ClientId)
    requires Reachable(env, w) && c in w.clients && c !in w.reapplied
    ensures w.clients[c].sourceHash == env.hash(w.clients[c].canonical)
  {
    InvReachable(env, w);
    assert StateOk(env, w.revisions, false, w.clients[c]);
  }

  /** A save can overwrite work that its author never saw. Any editor c behind the
      head can save and edit on, discard the conflict that the save meets, and then
      receive the answer z to its edit: discarding takes no new number, so z, an
      edit of what c showed on its old revision, is adopted on top of the head and
      the next save puts it in the place of the head's content. */
  lemma LateAnswerOverwritesHead(env: Environment, w: World, c: ClientId, newId: RevisionId, z: Strategy)
    returns (before: World, edit: RequestId, last: World)
    requires Reachable(env, w) && BehindHead(w, c) && c !in w.reapplied && newId !in w.revisions
    requires z != w.revisions[Head(w)].content
    ensures Reachable(env, before) && AdoptsFromElsewhere(before, AuthoringReply(edit, Some(z)))
    ensures before.pending[edit].at.state.canonical == w.clients[c].canonical
    ensures before.pending[edit].at.state.base == w.clients[c].base
    ensures before.pending[edit].at.state.revisionId == w.clients[c].revisionId
    ensures Reachable(env, last) && last.history == w.history + [newId]
    ensures last.saves == w.saves + [AcceptedSave(Head(w), newId, w.revisions[Head(w)].content, z)]
  {
    var s, head := w.clients[c], w.revisions[Head(w)];
    HeadKnowsItself(env, w);
    EditedHash(env, w, c);
    edit := w.issued + 1;
    var w1 := ReachConflict(env, w, c, newId);
    before := DiscardConflicted(env, w1, c, s, edit, head);
    var w2 := AdoptLate(env, before, c, s, edit, z);
    last := SaveOnHead(env, w2, c, newId);
  }

  // ----- reapplied work that cannot be edited -----

  /** After a reapply whose merge changed the hash, the editor is in the window in
      which no authoring request can succeed. */
  lemma ReapplyBlocksAuthoring(env: Environment, w: World, c: ClientId, newId: RevisionId, strategy: Strategy)
    returns (w': World)
    requires Reachable(env, w) && BehindHead(w, c) && newId !in w.revisions
    requires
      var s, head := w.clients[c], w.revisions[Head(w)].content;
      var merged := env.merge(s.base, s.canonical, head);
      merged.Some? && env.hash(merged.value) != env.hash(head)
    ensures Reachable(env, w') && c in w'.reapplied && Enabled(env, w', PressAuthoring(c, Apply))
    ensures !Enabled(env, Do(env, w', PressAuthoring(c, Apply)), AuthoringReply(w'.issued, Some(strategy)))
  {
    var w1 := ReachConflict(env, w, c, newId);
    ReachableStep(env, w1, PressReapply(c));
    w' := DoPressReapply(w1, c);
    ReappliedAuthoring(env, w', c, Apply, strategy);
  }

  // ----- edits under a conflict -----

  /** The conflict was computed from this state of the editor. */
  predicate ComputedFrom(env: Environment, k: Conflict, at: State) {
    k.merged == env.merge(at.base, at.canonical, k.current.content)
  }

  /** Editor c shows z, a later edit, beside a conflict that would put m in its place. */
  predicate EditUnderConflict(w: World, c: ClientId, z: Strategy, m: Strategy, undo: seq<Strategy>) {
    && c in w.clients && w.clients[c].canonical == z && w.clients[c].dirty && w.clients[c].status == Saved
    && w.clients[c].undo == undo && w.clients[c].redo == []
    && w.clients[c].conflict.Some? && w.clients[c].conflict.value.merged == Some(m)
  }

  lemma AdoptUnderConflict(env: Environment, w: World, c: ClientId, s: State, edit: RequestId, head: Revision,
                           z: Strategy, m: Strategy)
    returns (w': World)
    requires Reachable(env, w) && ConflictShown(env, w, c, s, edit, head) && s.sourceHash == env.hash(s.canonical)
    requires env.merge(s.base, s.canonical, head.content) == Some(m)
    ensures Reachable(env, w') && EditUnderConflict(w', c, z, m, s.undo + [s.canonical])
    ensures w'.clients[c].base == s.base && ComputedFrom(env, w'.clients[c].conflict.value, s)
  {
    ReachableStep(env, w, AuthoringReply(edit, Some(z)));
    w' := DoAuthoringReply(env, w, edit, Some(z));
  }

  /** Reapplying drops edits. Applying is not held back while a conflict is shown, and
      the conflict keeps the merge of the strategy it met: an editor behind the head
      saves, is shown the conflict, receives the answer z to an edit, and reapplies;
      z is in no part of the editor any more. */
  lemma ReapplyDropsEdit(env: Environment, w: World, c: ClientId, newId: RevisionId, z: Strategy, m: Strategy)
    returns (w': World)
    requires Reachable(env, w) && BehindHead(w, c) && c !in w.reapplied && newId !in w.revisions
    requires env.merge(w.clients[c].base, w.clients[c].canonical, w.revisions[Head(w)].content) == Some(m)
    requires z != m && z != w.clients[c].canonical && z !in w.clients[c].undo
    ensures Reachable(env, w') && EditUnderConflict(w', c, z, m, w.clients[c].undo + [w.clients[c].canonical])
    ensures w'.clients[c].base == w.clients[c].base && ComputedFrom(env, w'.clients[c].conflict.value, w.clients[c])
    ensures
      var s := DoPressReapply(w', c).clients[c];
      s.canonical == m && z !in s.undo && z !in s.redo && s.conflict == None
  {
    EditedHash(env, w, c);
    var s, head := w.clients[c], w.revisions[Head(w)];
    var w1 := ReachConflict(env, w, c, newId);
    w' := AdoptUnderConflict(env, w1, c, s, w.issued + 1, head, z, m);
  }

  // ----- a superseded prepared save -----

  /** The editor prepared a visual test from state s, whose save is at this stage. */
  predicate Preparing(w: World, c: ClientId, s: State, id: RequestId, authored: Strategy, stage: Stage) {
    && c in w.clients && w.clients[c] == s.(sequence := s.sequence + 1, status := Updating)
    && id in w.pending && w.pending[id] == PrepareSaving(Captured(c, s), s.sequence + 1, authored, stage)
    && id < w.issued
  }

  lemma BeginPrepare(env: Environment, w: World, c: ClientId, authored: Strategy) returns (w': World)
    requires Reachable(env, w) && BehindHead(w, c) && w.clients[c].sourceHash == env.hash(w.clients[c].canonical)
    ensures Reachable(env, w') && StoreKept(w, w') && Preparing(w', c, w.clients[c], w.issued, authored, Sent)
  {
    var s, id := w.clients[c], w.issued;
    ReachableStep(env, w, PressPrepare(c, true));
    var w1 := DoPressPrepare(w, c, true);
    assert id in w1.pending && w1.pending[id] == PrepareAuthoring(Captured(c, s), s.sequence + 1);
    w' := AnswerPrepare(env, w1, c, s, id, authored);
  }

  lemma AnswerPrepare(env: Environment, w: World, c: ClientId, s: State, id: RequestId, authored: Strategy)
    returns (w': World)
    requires Reachable(env, w) && s.sourceHash == env.hash(s.canonical) && id < w.issued
    requires c in w.clients && w.clients[c] == s.(sequence := s.sequence + 1, status := Updating)
    requires id in w.pending && w.pending[id] == PrepareAuthoring(Captured(c, s), s.sequence + 1)
    ensures Reachable(env, w') && StoreKept(w, w') && Preparing(w', c, s, id, authored, Sent)
  {
    ReachableStep(env, w, AuthoringReply(id, Some(authored)));
    w' := DoAuthoringReply(env, w, id, Some(authored));
  }

  lemma PrepareStale(env: Environment, w: World, c: ClientId, s: State, id: RequestId, authored: Strategy,
                     newId: RevisionId)
    returns (w': World)
    requires Reachable(env, w) && Preparing(w, c, s, id, authored, Sent) && newId !in w.revisions
    requires w.history != [] && Head(w) in w.revisions && s.revisionId != Head(w)
    ensures Reachable(env, w') && StoreKept(w, w') && Preparing(w', c, s, id, authored, LoadingHead)
  {
    ReachServerSave(env, w, id, newId);
    var w1 := DoServerSave(env, w, id, newId);
    assert Preparing(w1, c, s, id, authored, Answered(Stale));
    ReachableStep(env, w1, Deliver(id));
    w' := DoDeliver(env, w1, id);
  }

  lemma EditThenLoad(env: Environment, w: World, c: ClientId, s: State, id: RequestId, authored: Strategy)
    returns (w': World)
    requires Reachable(env, w) && Preparing(w, c, s, id, authored, LoadingHead)
    requires w.history != [] && Head(w) in w.revisions
    ensures Reachable(env, w') && Superseded(w', id) && c in w'.clients && w'.clients[c].status == Updating
    ensures w'.pending[id] == PrepareSaving(Captured(c, s), s.sequence + 1, authored, HeadLoaded(w.revisions[Head(w)]))
    ensures w.issued in w'.pending && Ticket(w'.pending[w.issued]) == Some((c, w'.clients[c].sequence))
  {
    ReachPressApply(env, w, c);
    var w1 := DoPressAuthoring(w, c, Apply);
    ReachableStep(env, w1, ReadHead(id));
    w' := DoReadHead(env, w1, id);
  }

  /** The counter does not stop every late answer. An editor behind the head
      prepares a visual test, whose save is stale, and issues an edit while the
      head is loading: the superseded test still puts up its conflict, over the
      edit that is current. */
  lemma LateConflict(env: Environment, w: World, c: ClientId, newId: RevisionId, authored: Strategy)
    returns (w': World, test: RequestId, edit: RequestId)
    requires Reachable(env, w) && BehindHead(w, c) && c !in w.reapplied && newId !in w.revisions
    ensures Reachable(env, w') && Superseded(w', test) && Enabled(env, w', Deliver(test))
        && w'.pending[test].at.client == c
    ensures edit in w'.pending && Ticket(w'.pending[edit]) == Some((c, w'.clients[c].sequence))
    ensures
      var s := Do(env, w', Deliver(test)).clients[c];
      w'.clients[c].status == Updating && s.status == Invalid && s.conflict.Some?
  {
    EditedHash(env, w, c);
    test := w.issued;
    var s := w.clients[c];
    var w1 := BeginPrepare(env, w, c, authored);
    var w2 := PrepareStale(env, w1, c, s, test, authored, newId);
    edit := w2.issued;
    w' := EditThenLoad(env, w2, c, s, test, authored);
    SupersededPrepared(env, w', test);
  }


  // ----- such editors exist -----

  /** A second editor opens the head and edits it. */
  lemma OpenAndEdit(env: Environment, w: World, d: ClientId, y: Strategy) returns (w': World)
    requires Reachable(env, w) && d !in w.clients
    ensures Reachable(env, w') && StoreKept(w, w') && d in w'.clients && w'.clients == w.clients[d := w'.clients[d]]
    ensures w'.clients[d].canonical == y && w'.clients[d].dirty && w'.clients[d].status == Saved
    ensures w.history != [] && w'.clients[d].revisionId == Head(w)
  {
    HeadKnowsItself(env, w);
    NotReapplied(env, w, d);
    OpenedHash(env, w);
    ReachableStep(env, w, Open(d, Head(w)));
    w' := FirstEditAnswered(env, Put(w, d, Opened(w.revisions[Head(w)])), d, y);
  }

  lemma OpenedHash(env: Environment, w: World)
    requires Reachable(env, w)
    ensures w.history != [] && Head(w) in w.revisions
    ensures
      var s := Opened(w.revisions[Head(w)]);
      s.sourceHash == env.hash(s.canonical)
  {
    InvReachable(env, w);
  }

  lemma FirstEditAnswered(env: Environment, w: World, d: ClientId, y: Strategy) returns (w': World)
    requires Reachable(env, w) && d in w.clients && d !in w.reapplied
    requires w.clients[d].sourceHash == env.hash(w.clients[d].canonical)
    ensures Reachable(env, w') && StoreKept(w, w') && d in w'.clients && w'.clients == w.clients[d := w'.clients[d]]
    ensures w'.clients[d].canonical == y && w'.clients[d].dirty && w'.clients[d].status == Saved
    ensures w'.clients[d].revisionId == w.clients[d].revisionId
  {
    ReachPressApply(env, w, d);
    var w1 := DoPressAuthoring(w, d, Apply);
    ReachableStep(env, w1, AuthoringReply(w.issued, Some(y)));
    w' := DoAuthoringReply(env, w1, w.issued, Some(y));
  }

  lemma NotReapplied(env: Environment, w: World, d: ClientId)
    requires Reachable(env, w) && d !in w.clients
    ensures d !in w.reapplied
  {
    InvReachable(env, w);
  }

  lemma OtherSaves(env: Environment, w: World, c: ClientId, d: ClientId, newId: RevisionId) returns (w': World)
    requires Reachable(env, w) && c in w.clients && d in w.clients && c != d
    requires w.clients[d].dirty && w.clients[d].status == Saved && newId !in w.revisions
    requires w.history != [] && Head(w) in w.revisions && w.clients[d].revisionId == Head(w)
    requires w.revisions[Head(w)].content != w.clients[d].canonical
    ensures Reachable(env, w') && c in w'.clients && w'.clients[c] == w.clients[c] && w'.reapplied == w.reapplied
    ensures w'.history == w.history + [newId] && w'.revisions.Keys == w.revisions.Keys + {newId}
    ensures w'.revisions[newId].content == w.clients[d].canonical
  {
    ReachPressSave(env, w, d);
    var w1 := DoPressSave(w, d);
    SaveSent(w, d);
    w' := SaveAccepted(env, w1, w.issued, newId);
  }

  lemma SaveSent(w: World, d: ClientId)
    requires d in w.clients && w.clients[d].dirty && w.clients[d].status == Saved
    ensures
      var w1, s := DoPressSave(w, d), w.clients[d];
      && StoreKept(w, w1) && w1.clients == w.clients[d := s.(status := Updating)]
      && w.issued in w1.pending && w1.pending[w.issued] == Saving(Captured(d, s), Sent, false)
  {
  }

  lemma SaveAccepted(env: Environment, w: World, id: RequestId, newId: RevisionId) returns (w': World)
    requires Reachable(env, w) && id in w.pending && w.pending[id].Saving? && w.pending[id].stage.Sent?
    requires w.history != [] && Head(w) in w.revisions && newId !in w.revisions
    requires w.pending[id].at.state.revisionId == Head(w)
    requires w.revisions[Head(w)].content != w.pending[id].at.state.canonical
    ensures Reachable(env, w') && w'.clients == w.clients && w'.reapplied == w.reapplied
    ensures w'.history == w.history + [newId] && w'.revisions.Keys == w.revisions.Keys + {newId}
    ensures w'.revisions[newId].content == w.pending[id].at.state.canonical
    ensures
      var s := w.pending[id].at.state;
      w'.saves == w.saves + [AcceptedSave(Head(w), newId, s.base, s.canonical)]
  {
    ReachServerSave(env, w, id, newId);
    w' := DoServerSave(env, w, id, newId);
  }

  /** Two editors open x; one edits it to a, the other to y and saves. */
  lemma EditorBehindHeadExists(env: Environment, x: Strategy, a: Strategy, y: Strategy) returns (w: World)
    requires a != x && y != x
    ensures Reachable(env, w) && BehindHead(w, 0) && 0 !in w.reapplied && w.clients[0].canonical == a
    ensures w.clients[0].base == x && w.history == ["a", "b"] && w.revisions.Keys == {"a", "b"}
    ensures w.revisions["b"].content == y && w.clients[0].undo == [x]
  {
    var w1 := EditedEditorExists(env, x, a);
    EditedFacts(env, w1, 0);
    var w2 := OpenAndEdit(env, w1, 1, y);
    w := OtherSaves(env, w2, 0, 1, "b");
  }

  /** The run in full: y, which the author of z never saw, is overwritten by z. */
  lemma UnseenWorkIsOverwritten(env: Environment, x: Strategy, a: Strategy, y: Strategy, z: Strategy)
    returns (last: World)
    requires a != x && y != x && z != y
    ensures Reachable(env, last) && last.history == ["a", "b", "c"]
    ensures |last.saves| == 2 && last.saves[1] == AcceptedSave("b", "c", y, z)
  {
    var w := EditorBehindHeadExists(env, x, a, y);
    var before, edit;
    before, edit, last := LateAnswerOverwritesHead(env, w, 0, "c", z);
    InvReachable(env, w);
  }

  /** A reapply that leaves the editor unable to author, in full. */
  lemma ReappliedEditorIsStuck(env: Environment, x: Strategy, a: Strategy, y: Strategy, m: Strategy, next: Strategy)
    returns (w: World)
    requires a != x && y != x && env.merge(x, a, y) == Some(m) && env.hash(m) != env.hash(y)
    ensures Reachable(env, w) && 0 in w.reapplied && Enabled(env, w, PressAuthoring(0, Apply))
    ensures !Enabled(env, Do(env, w, PressAuthoring(0, Apply)), AuthoringReply(w.issued, Some(next)))
  {
    var behind := EditorBehindHeadExists(env, x, a, y);
    w := ReapplyBlocksAuthoring(env, behind, 0, "c", next);
  }

  /** A superseded test that puts up its conflict over the current edit, in full. */
  lemma LateConflictExists(env: Environment, x: Strategy, a: Strategy, y: Strategy, authored: Strategy)
    returns (w: World, test: RequestId, edit: RequestId)
    requires a != x && y != x
    ensures Reachable(env, w) && Superseded(w, test) && Enabled(env, w, Deliver(test)) && 0 in w.clients
    ensures edit in w.pending && Ticket(w.pending[edit]) == Some((0, w.clients[0].sequence))
    ensures Do(env, w, Deliver(test)).clients != w.clients
  {
    var behind := EditorBehindHeadExists(env, x, a, y);
    w, test, edit := LateConflict(env, behind, 0, "c", authored);
  }

  /** An edit dropped by a reapply, in full. */
  lemma EditIsDroppedByReapply(env: Environment, x: Strategy, a: Strategy, y: Strategy, z: Strategy, m: Strategy)
    returns (w: World)
    requires a != x && y != x && env.merge(x, a, y) == Some(m) && z != m && z != a && z != x
    ensures Reachable(env, w) && EditUnderConflict(w, 0, z, m, [x, a])
    ensures Enabled(env, w, PressReapply(0)) && 0 in Do(env, w, PressReapply(0)).clients
    ensures
      var s := Do(env, w, PressReapply(0)).clients[0];
      s.canonical == m && z !in s.undo && z !in s.redo
  {
    var behind := EditorBehindHeadExists(env, x, a, y);
    w := ReapplyDropsEdit(env, behind, 0, "c", z, m);
  }
}
