/** What every reachable state of the editor protocol satisfies. */
module EditorSafety {
  import opened Options
  import opened Editor
  import opened EditorProtocol

  type Store = map<RevisionId, Revision>

  // ----- the invariant -----

  ghost predicate Stored(store: Store, id: RevisionId, content: Strategy) {
    id in store && store[id].content == content
  }

  ghost predicate Genuine(store: Store, r: Revision) {
    r.id in store && store[r.id] == r
  }

  /** Every revision is filed under its id and hashed; the history lists each
      revision once, each one naming its predecessor as parent; and the sender of
      every accepted save had edited from the content that its save replaced. */
  ghost predicate StoreOk(env: Environment, store: Store, history: seq<RevisionId>, saves: seq<AcceptedSave>) {
    && history != []
    && |saves| == |history| - 1
    && history[0] in store && store[history[0]].parent == None
    && (forall id :: id in store <==> id in history)
    && (forall id | id in store :: store[id].id == id && store[id].hash == env.hash(store[id].content))
    && (forall i, j | 0 <= i < j < |history| :: history[i] != history[j])
    && (forall i | 0 <= i < |saves| :: SaveOk(store, history[i], history[i + 1], saves[i]))
  }

  ghost predicate SaveOk(store: Store, parent: RevisionId, id: RevisionId, save: AcceptedSave) {
    && save.parent == parent
    && save.revision == id
    && Stored(store, parent, save.senderBase)
    && Stored(store, id, save.content)
    && store[id].parent == Some(parent)
  }

  /** base is the stored content of revisionId; a clean editor shows its base; the
      source hash belongs to what is shown, except after a reapply, when it is
      still the hash of the base. */
  ghost predicate StateOk(env: Environment, store: Store, reapplied: bool, s: State) {
    && Stored(store, s.revisionId, s.base)
    && (!s.dirty ==> s.canonical == s.base)
    && (!reapplied ==> s.sourceHash == env.hash(s.canonical))
    && (reapplied ==> s.dirty && s.sourceHash == env.hash(s.base))
    && (s.conflict.Some? ==> ConflictOk(store, s.conflict.value))
  }

  ghost predicate ConflictOk(store: Store, c: Conflict) {
    Genuine(store, c.current) && c.currentRevisionId == c.current.id
  }

  ghost predicate CapturedOk(store: Store, s: State) {
    Stored(store, s.revisionId, s.base) && (!s.dirty ==> s.canonical == s.base)
  }

  /** A reply of the store brings the content that was sent. */
  ghost predicate StageOk(store: Store, sent: Strategy, stage: Stage) {
    match stage
    case Answered(Accepted(r)) => Genuine(store, r) && r.content == sent
    case HeadLoaded(head) => Genuine(store, head)
    case _ => true
  }

  ghost predicate PendingOk(store: Store, p: Pending) {
    && CapturedOk(store, p.at.state)
    && match p
       case Saving(at, stage, _) => StageOk(store, at.state.canonical, stage)
       case PrepareSaving(_, _, authored, stage) => StageOk(store, authored, stage)
       case Refreshing(_, _, stage) => (stage.LoadingHead? || stage.HeadLoaded?)
           && StageOk(store, p.at.state.canonical, stage)
       case _ => true
  }

  ghost predicate Consistent(env: Environment, store: Store, clients: map<ClientId, State>,
                             reapplied: set<ClientId>, pending: map<RequestId, Pending>)
  {
    && (forall c | c in reapplied :: c in clients)
    && (forall c | c in clients :: StateOk(env, store, c in reapplied, clients[c]))
    && (forall id | id in pending :: PendingOk(store, pending[id]) && pending[id].at.client in clients)
  }

  ghost predicate StatesOk(env: Environment, w: World) {
    Consistent(env, w.revisions, w.clients, w.reapplied, w.pending)
  }

  /** The run p belongs to a quick test that has neither executed nor failed. */
  predicate Undecided(p: Pending) {
    p.Preflight? || (p.Saving? && p.forRun)
  }

  ghost predicate Decided(store: Store, pending: map<RequestId, Pending>, issued: RequestId,
                          executions: map<RequestId, Execution>, failedRuns: set<RequestId>)
  {
    && (forall id | id in executions :: Stored(store, executions[id].revisionId, executions[id].shown))
    && (forall id | id in executions :: id !in failedRuns && id < issued)
    && (forall id | id in failedRuns :: id < issued)
    && (forall id | id in pending :: id < issued)
    && (forall id | id in pending && Undecided(pending[id]) :: id !in executions && id !in failedRuns)
  }

  /** Executed quick tests ran what was shown; failed ones never executed. */
  ghost predicate RunsOk(w: World) {
    Decided(w.revisions, w.pending, w.issued, w.executions, w.failedRuns)
  }

  /** The editor and the number that a numbered request was issued with. */
  function Ticket(p: Pending): Option<(ClientId, nat)> {
    match p
    case Authoring(at, number, _) => Some((at.client, number))
    case PrepareAuthoring(at, number) => Some((at.client, number))
    case PrepareSaving(at, number, _, _) => Some((at.client, number))
    case _ => None
  }

  /** Requests of one editor carry different numbers, none above its counter. */
  ghost predicate TicketsOk(clients: map<ClientId, State>, pending: map<RequestId, Pending>) {
    && (forall id | id in pending && Ticket(pending[id]).Some? :: TicketIssued(clients, Ticket(pending[id]).value))
    && (forall i, j | i in pending && j in pending && i != j && Ticket(pending[i]).Some? ::
          Ticket(pending[i]) != Ticket(pending[j]))
  }

  ghost predicate TicketIssued(clients: map<ClientId, State>, t: (ClientId, nat)) {
    t.0 in clients && t.1 <= clients[t.0].sequence
  }

  ghost predicate NumbersOk(w: World) {
    TicketsOk(w.clients, w.pending)
  }

  ghost predicate Inv(env: Environment, w: World) {
    && StoreOk(env, w.revisions, w.history, w.saves)
    && StatesOk(env, w)
    && RunsOk(w)
    && NumbersOk(w)
  }

  // ----- the store only grows -----

  ghost predicate Grows(a: Store, b: Store) {
    forall id | id in a :: id in b && b[id] == a[id]
  }

  lemma StoreStep(env: Environment, w: World, step: Step)
    requires Inv(env, w) && Enabled(env, w, step)
    ensures
      var w' := Do(env, w, step);
      StoreOk(env, w'.revisions, w'.history, w'.saves) && Grows(w.revisions, w'.revisions)
  {
    if IsPress(step) {
      PressKeepsStore(env, w, step);
    } else if step.ServerSave? {
      ServerSaveStore(env, w, step.request, step.newId);
    } else {
      NetworkKeepsStore(env, w, step);
    }
  }

  ghost predicate SameStore(w: World, w': World) {
    w'.revisions == w.revisions && w'.history == w.history && w'.saves == w.saves
  }

  lemma PressKeepsStore(env: Environment, w: World, step: Step)
    requires IsPress(step) && Enabled(env, w, step)
    ensures SameStore(w, DoPress(env, w, step))
  {
  }

  lemma NetworkKeepsStore(env: Environment, w: World, step: Step)
    requires !IsPress(step) && Enabled(env, w, step) && !step.ServerSave?
    ensures SameStore(w, DoNetwork(env, w, step))
  {
    match step
    case Deliver(id) => DeliverKeepsStore(env, w, id);
    case HeadUnavailable(id) => assert SameStore(w, DoHeadUnavailable(env, w, id));
    case LoseConnection(id) => assert SameStore(w, DoLoseConnection(w, id));
    case AuthoringReply(id, strategy) => assert SameStore(w, DoAuthoringReply(env, w, id, strategy));
    case PreflightReply(id, executable) => assert SameStore(w, DoPreflightReply(w, id, executable));
    case _ =>
  }

  lemma DeliverKeepsStore(env: Environment, w: World, id: RequestId)
    requires Enabled(env, w, Deliver(id))
    ensures SameStore(w, DoDeliver(env, w, id))
  {
  }

  lemma ServerSaveStore(env: Environment, w: World, id: RequestId, newId: RevisionId)
    requires Inv(env, w) && Enabled(env, w, ServerSave(id, newId))
    ensures
      var w' := DoServerSave(env, w, id, newId);
      StoreOk(env, w'.revisions, w'.history, w'.saves) && Grows(w.revisions, w'.revisions)
  {
    var p := w.pending[id];
    assert PendingOk(w.revisions, p);
    var content, parent := SaveBody(p).value, p.at.state.revisionId;
    if parent == Head(w) && w.revisions[Head(w)].content != content {
      AppendRevision(env, w.revisions, w.history, w.saves, newId, content, p.at.state.base);
    }
  }

  lemma AppendRevision(env: Environment, store: Store, history: seq<RevisionId>, saves: seq<AcceptedSave>,
                       newId: RevisionId, content: Strategy, base: Strategy)
    requires StoreOk(env, store, history, saves) && newId !in store
    requires Stored(store, history[|history| - 1], base)
    ensures
      var head := history[|history| - 1];
      var r := Revision(newId, Some(head), content, env.hash(content));
      StoreOk(env, store[newId := r], history + [newId], saves + [AcceptedSave(head, newId, base, content)])
  {
    var head := history[|history| - 1];
    var store' := store[newId := Revision(newId, Some(head), content, env.hash(content))];
    var history', saves' := history + [newId], saves + [AcceptedSave(head, newId, base, content)];
    forall i | 0 <= i < |saves'| ensures SaveOk(store', history'[i], history'[i + 1], saves'[i]) {
      if i < |saves| {
        assert SaveOk(store, history[i], history[i + 1], saves[i]);
      }
    }
    forall id ensures id in store' <==> id in history' {
      assert id in history' <==> id in history || id == newId;
    }
  }

  // ----- editors and suspended handlers stay consistent -----

  lemma StateGrows(env: Environment, a: Store, b: Store, reapplied: bool, s: State)
    requires Grows(a, b) && StateOk(env, a, reapplied, s)
    ensures StateOk(env, b, reapplied, s)
  {
  }

  lemma PendingGrows(a: Store, b: Store, p: Pending)
    requires Grows(a, b) && PendingOk(a, p)
    ensures PendingOk(b, p)
  {
  }

  lemma GrowStore(env: Environment, w: World, store: Store)
    requires StatesOk(env, w) && Grows(w.revisions, store)
    ensures Consistent(env, store, w.clients, w.reapplied, w.pending)
  {
    forall c | c in w.clients ensures StateOk(env, store, c in w.reapplied, w.clients[c]) {
      StateGrows(env, w.revisions, store, c in w.reapplied, w.clients[c]);
    }
    forall id | id in w.pending ensures PendingOk(store, w.pending[id]) {
      PendingGrows(w.revisions, store, w.pending[id]);
    }
  }

  /** Editor c moves to state s; only c may enter or leave the reapplied set. */
  lemma SetEditor(env: Environment, w: World, c: ClientId, s: State, reapplied: set<ClientId>)
    requires StatesOk(env, w) && StateOk(env, w.revisions, c in reapplied, s)
    requires forall d | d != c :: d in reapplied <==> d in w.reapplied
    ensures Consistent(env, w.revisions, w.clients[c := s], reapplied, w.pending)
  {
    forall d | d in w.clients && d != c ensures StateOk(env, w.revisions, d in reapplied, w.clients[d]) {
      assert StateOk(env, w.revisions, d in w.reapplied, w.clients[d]);
    }
  }

  lemma SetPending(env: Environment, w: World, id: RequestId, p: Pending)
    requires StatesOk(env, w) && PendingOk(w.revisions, p) && p.at.client in w.clients
    ensures Consistent(env, w.revisions, w.clients, w.reapplied, w.pending[id := p])
  {
  }

  lemma DropPending(env: Environment, w: World, id: RequestId)
    requires StatesOk(env, w)
    ensures Consistent(env, w.revisions, w.clients, w.reapplied, w.pending - {id})
  {
  }

  lemma PutThenFinish(env: Environment, w: World, c: ClientId, s: State, reapplied: set<ClientId>, id: RequestId)
    requires StatesOk(env, w) && StateOk(env, w.revisions, c in reapplied, s)
    requires forall d | d != c :: d in reapplied <==> d in w.reapplied
    ensures Consistent(env, w.revisions, w.clients[c := s], reapplied, w.pending - {id})
  {
    SetEditor(env, w, c, s, reapplied);
    DropPending(env, Put(w, c, s).(reapplied := reapplied), id);
  }

  lemma PutThenAwait(env: Environment, w: World, c: ClientId, s: State, reapplied: set<ClientId>, id: RequestId,
                     p: Pending)
    requires StatesOk(env, w) && StateOk(env, w.revisions, c in reapplied, s)
    requires forall d | d != c :: d in reapplied <==> d in w.reapplied
    requires PendingOk(w.revisions, p) && p.at.client == c
    ensures Consistent(env, w.revisions, w.clients[c := s], reapplied, w.pending[id := p])
  {
    SetEditor(env, w, c, s, reapplied);
    SetPending(env, Put(w, c, s).(reapplied := reapplied), id, p);
  }

  /** What a handler captures is as consistent as the editor it captured. */
  lemma CaptureOk(env: Environment, w: World, c: ClientId)
    requires StatesOk(env, w) && c in w.clients
    ensures StateOk(env, w.revisions, c in w.reapplied, w.clients[c])
    ensures CapturedOk(w.revisions, w.clients[c])
  {
  }

  lemma PressAuthoringStates(env: Environment, w: World, c: ClientId, d: Direction)
    requires StatesOk(env, w) && c in w.clients
    ensures StatesOk(env, DoPressAuthoring(w, c, d))
  {
    var s := w.clients[c];
    CaptureOk(env, w, c);
    PutThenAwait(env, w, c, Issued(s), w.reapplied, w.issued, Authoring(Captured(c, s), s.sequence + 1, d));
  }

  lemma PressPrepareStates(env: Environment, w: World, c: ClientId, hasOperation: bool)
    requires StatesOk(env, w) && c in w.clients
    ensures StatesOk(env, DoPressPrepare(w, c, hasOperation))
  {
    var s := w.clients[c];
    CaptureOk(env, w, c);
    if hasOperation {
      PutThenAwait(env, w, c, Issued(s), w.reapplied, w.issued, PrepareAuthoring(Captured(c, s), s.sequence + 1));
    } else {
      SetEditor(env, w, c, s.(panel := Setup), w.reapplied);
    }
  }

  lemma PressStates(env: Environment, w: World, step: Step)
    requires StatesOk(env, w) && Enabled(env, w, step)
    requires step.PressSave? || step.PressRefresh? || step.ReportWorking? || step.PressRun?
    ensures StatesOk(env, DoPress(env, w, step))
  {
    var c := step.client;
    var s := w.clients[c];
    CaptureOk(env, w, c);
    match step
    case PressSave(_) =>
      PutThenAwait(env, w, c, s.(status := Updating), w.reapplied, w.issued, Saving(Captured(c, s), Sent, false));
    case PressRefresh(_) =>
      if s.conflict.Some? {
        SetPending(env, w, w.issued, Refreshing(Captured(c, s), s.conflict.value, LoadingHead));
      }
    case ReportWorking(_, unfinished) =>
      SetEditor(env, w, c, s.(status := if unfinished then Unfinished else Saved), w.reapplied);
    case PressRun(_) => SetPending(env, w, w.issued, Preflight(Captured(c, s)));
  }

  lemma OpenStates(env: Environment, w: World, c: ClientId, r: RevisionId)
    requires Inv(env, w) && Enabled(env, w, Open(c, r))
    ensures StatesOk(env, Put(w, c, Opened(w.revisions[r])))
  {
    SetEditor(env, w, c, Opened(w.revisions[r]), w.reapplied);
  }

  lemma ReapplyStates(env: Environment, w: World, c: ClientId)
    requires Inv(env, w) && c in w.clients
    ensures StatesOk(env, DoPressReapply(w, c))
  {
    var s := w.clients[c];
    CaptureOk(env, w, c);
    if s.conflict.Some? {
      GenuineHash(env, w, s.conflict.value.current);
    }
    SetEditor(env, w, c, Reapplied(s), DoPressReapply(w, c).reapplied);
  }

  lemma DiscardStates(env: Environment, w: World, c: ClientId)
    requires Inv(env, w) && c in w.clients
    ensures StatesOk(env, DoPressDiscard(w, c))
  {
    var s := w.clients[c];
    CaptureOk(env, w, c);
    if s.conflict.Some? {
      GenuineHash(env, w, s.conflict.value.current);
    }
    SetEditor(env, w, c, Discarded(s), DoPressDiscard(w, c).reapplied);
  }

  lemma GenuineHash(env: Environment, w: World, r: Revision)
    requires StoreOk(env, w.revisions, w.history, w.saves) && Genuine(w.revisions, r)
    ensures r.hash == env.hash(r.content) && Stored(w.revisions, r.id, r.content)
  {
  }

  lemma AuthoringStates(env: Environment, w: World, id: RequestId, strategy: Option<Strategy>)
    requires StatesOk(env, w) && Enabled(env, w, AuthoringReply(id, strategy))
    ensures StatesOk(env, DoAuthoringReply(env, w, id, strategy))
  {
    var p := w.pending[id];
    var c := p.at.client;
    var s := w.clients[c];
    CaptureOk(env, w, c);
    assert PendingOk(w.revisions, p);
    if p.Authoring? {
      AnsweredStates(env, w, id, p, strategy);
    } else if strategy.None? {
      PutThenFinish(env, w, c, PrepareFailed(s, p.number), w.reapplied, id);
    } else if p.number != s.sequence {
      DropPending(env, w, id);
    } else {
      SetPending(env, w, id, PrepareSaving(p.at, p.number, strategy.value, Sent));
    }
  }

  lemma AnsweredStates(env: Environment, w: World, id: RequestId, p: Pending, strategy: Option<Strategy>)
    requires StatesOk(env, w) && Enabled(env, w, AuthoringReply(id, strategy)) && w.pending[id] == p && p.Authoring?
    ensures StatesOk(env, DoAuthoringReply(env, w, id, strategy))
  {
    var c, s := p.at.client, w.clients[p.at.client];
    assert StateOk(env, w.revisions, c in w.reapplied, s);
    var answer := if strategy.None? then Rejected else Authored(strategy.value, env.hash(strategy.value));
    var s' := AuthoringAnswered(s, p.number, p.direction, p.at.state.canonical, answer);
    var changed := p.number == s.sequence && strategy.Some?;
    AnsweredState(env, w.revisions, s, c in w.reapplied, p.number, p.direction, p.at.state.canonical, strategy);
    PutThenFinish(env, w, c, s', if changed then w.reapplied - {c} else w.reapplied, id);
  }

  lemma AnsweredState(env: Environment, store: Store, s: State, reapplied: bool, number: nat, direction: Direction,
                      sent: Strategy, strategy: Option<Strategy>)
    requires StateOk(env, store, reapplied, s)
    ensures
      var answer := if strategy.None? then Rejected else Authored(strategy.value, env.hash(strategy.value));
      var changed := number == s.sequence && strategy.Some?;
      StateOk(env, store, reapplied && !changed, AuthoringAnswered(s, number, direction, sent, answer))
  {
  }

  lemma ReplyOk(store: Store, p: Pending, reply: SaveReply)
    requires SaveBody(p).Some? && PendingOk(store, p)
    requires reply.Accepted? ==> Genuine(store, reply.revision) && reply.revision.content == SaveBody(p).value
    ensures PendingOk(store, WithStage(p, Answered(reply))) && WithStage(p, Answered(reply)).at == p.at
  {
  }

  lemma ServerStates(env: Environment, w: World, id: RequestId, newId: RevisionId)
    requires Inv(env, w) && Enabled(env, w, ServerSave(id, newId))
    ensures StatesOk(env, DoServerSave(env, w, id, newId))
  {
    var p := w.pending[id];
    var content := SaveBody(p).value;
    var head := w.revisions[Head(w)];
    assert PendingOk(w.revisions, p) && Genuine(w.revisions, head);
    if p.at.state.revisionId != Head(w) {
      ReplyOk(w.revisions, p, Stale);
      SetPending(env, w, id, WithStage(p, Answered(Stale)));
    } else if head.content == content {
      ReplyOk(w.revisions, p, Accepted(head));
      SetPending(env, w, id, WithStage(p, Answered(Accepted(head))));
    } else {
      var r := Revision(newId, Some(Head(w)), content, env.hash(content));
      var store := w.revisions[newId := r];
      GrowStore(env, w, store);
      PendingGrows(w.revisions, store, p);
      ReplyOk(store, p, Accepted(r));
      SetPending(env, w.(revisions := store), id, WithStage(p, Answered(Accepted(r))));
    }
  }

  lemma FailureStates(env: Environment, w: World, id: RequestId, p: Pending)
    requires StatesOk(env, w) && (p.Saving? || p.PrepareSaving?) && p.at.client in w.clients
    ensures StatesOk(env, SaveFailedAt(w, id, p))
  {
    var w' := SaveFailedAt(w, id, p);
    var c := p.at.client;
    CaptureOk(env, w, c);
    PutThenFinish(env, w, c, w'.clients[c], w.reapplied, id);
  }

  lemma LostStates(env: Environment, w: World, id: RequestId)
    requires StatesOk(env, w) && Enabled(env, w, LoseConnection(id))
    ensures StatesOk(env, DoLoseConnection(w, id))
  {
    var p := w.pending[id];
    FailureStates(env, w, id, p);
    assert PendingOk(w.revisions, p);
    if p.stage.Sent? {
      SetPending(env, SaveFailedAt(w, id, p), w.issued, Orphaned(p.at, SaveBody(p).value));
    }
  }

  lemma AcceptedSaveStates(env: Environment, w: World, id: RequestId, p: Pending, r: Revision)
    requires Inv(env, w) && p.Saving? && p.at.client in w.clients && PendingOk(w.revisions, p)
    requires p.stage == Answered(Accepted(r)) && Genuine(w.revisions, r)
    ensures StatesOk(env, DeliverSaving(env, w, id, p))
  {
    var c := p.at.client;
    GenuineHash(env, w, r);
    CaptureOk(env, w, c);
    if p.forRun {
      PutThenAwait(env, w, c, WithRevision(w.clients[c], r), w.reapplied - {c}, id, Executing(p.at));
    } else {
      PutThenFinish(env, w, c, WithRevision(w.clients[c], r), w.reapplied - {c}, id);
    }
  }

  lemma ConflictedSaveStates(env: Environment, w: World, id: RequestId, p: Pending, head: Revision)
    requires Inv(env, w) && p.Saving? && p.at.client in w.clients
    requires p.stage == HeadLoaded(head) && Genuine(w.revisions, head)
    ensures StatesOk(env, DeliverSaving(env, w, id, p))
  {
    CaptureOk(env, w, p.at.client);
    PutThenFinish(env, w, p.at.client, DeliverSaving(env, w, id, p).clients[p.at.client], w.reapplied, id);
  }

  lemma DeliverSavingStates(env: Environment, w: World, id: RequestId, p: Pending)
    requires Inv(env, w) && id in w.pending && p == w.pending[id] && p.Saving?
    ensures StatesOk(env, DeliverSaving(env, w, id, p))
  {
    assert PendingOk(w.revisions, p);
    match p.stage
    case Answered(Accepted(r)) => AcceptedSaveStates(env, w, id, p, r);
    case Answered(Stale) => SetPending(env, w, id, WithStage(p, LoadingHead));
    case HeadLoaded(head) => ConflictedSaveStates(env, w, id, p, head);
    case _ => FailureStates(env, w, id, p);
  }

  lemma AcceptedPrepareStates(env: Environment, w: World, id: RequestId, p: Pending, r: Revision)
    requires Inv(env, w) && p.PrepareSaving? && p.at.client in w.clients
    requires p.stage == Answered(Accepted(r)) && Genuine(w.revisions, r)
    ensures StatesOk(env, DeliverPrepared(env, w, id, p))
  {
    var c := p.at.client;
    var w' := DeliverPrepared(env, w, id, p);
    CaptureOk(env, w, c);
    GenuineHash(env, w, r);
    PutThenFinish(env, w, c, PrepareSaved(w.clients[c], p.number, p.at.state.canonical, r), w'.reapplied, id);
  }

  lemma DeliverPrepareStates(env: Environment, w: World, id: RequestId, p: Pending)
    requires Inv(env, w) && id in w.pending && p == w.pending[id] && p.PrepareSaving?
    ensures StatesOk(env, DeliverPrepared(env, w, id, p))
  {
    var c := p.at.client;
    assert PendingOk(w.revisions, p);
    match p.stage
    case Answered(Accepted(r)) => AcceptedPrepareStates(env, w, id, p, r);
    case Answered(Stale) =>
      DropPending(env, w, id);
      SetPending(env, w, id, WithStage(p, LoadingHead));
    case HeadLoaded(head) =>
      CaptureOk(env, w, c);
      PutThenFinish(env, w, c, WithConflict(w.clients[c], ConflictWith(env, p.at, head)), w.reapplied, id);
    case _ => FailureStates(env, w, id, p);
  }

  lemma DeliverRefreshStates(env: Environment, w: World, id: RequestId, p: Pending)
    requires Inv(env, w) && id in w.pending && p == w.pending[id] && p.Refreshing?
    ensures StatesOk(env, DeliverRefreshed(env, w, id, p))
  {
    CaptureOk(env, w, p.at.client);
    assert PendingOk(w.revisions, p);
    PutThenFinish(env, w, p.at.client, DeliverRefreshed(env, w, id, p).clients[p.at.client], w.reapplied, id);
  }

  lemma HeadStates(env: Environment, w: World, step: Step)
    requires Inv(env, w) && Enabled(env, w, step) && (step.ReadHead? || step.HeadUnavailable?)
    ensures StatesOk(env, DoNetwork(env, w, step))
  {
    var id := step.request;
    var p := w.pending[id];
    assert PendingOk(w.revisions, p);
    if step.ReadHead? {
      assert Genuine(w.revisions, w.revisions[Head(w)]);
      SetPending(env, w, id, WithStage(p, HeadLoaded(w.revisions[Head(w)])));
    } else if p.Refreshing? {
      DropPending(env, w, id);
    } else {
      FailureStates(env, w, id, p);
    }
  }

  lemma PreflightStates(env: Environment, w: World, id: RequestId, executable: bool)
    requires StatesOk(env, w) && Enabled(env, w, PreflightReply(id, executable))
    ensures StatesOk(env, DoPreflightReply(w, id, executable))
  {
    var at := w.pending[id].at;
    var w' := DoPreflightReply(w, id, executable);
    CaptureOk(env, w, at.client);
    assert PendingOk(w.revisions, w.pending[id]);
    if executable && PersistDecision(at.state) != NotReady {
      PutThenAwait(env, w, at.client, w'.clients[at.client], w.reapplied, id, w'.pending[id]);
    } else {
      PutThenFinish(env, w, at.client, w'.clients[at.client], w.reapplied, id);
    }
  }

  lemma ExecutionDoneStates(env: Environment, w: World, id: RequestId, succeeded: bool)
    requires StatesOk(env, w) && Enabled(env, w, ExecutionDone(id, succeeded))
    ensures StatesOk(env, DoExecutionDone(w, id, succeeded))
  {
    var c := w.pending[id].at.client;
    CaptureOk(env, w, c);
    PutThenFinish(env, w, c, DoExecutionDone(w, id, succeeded).clients[c], w.reapplied, id);
  }

  lemma RefuseStates(env: Environment, w: World, id: RequestId)
    requires StatesOk(env, w) && Enabled(env, w, ServerRefuse(id))
    ensures StatesOk(env, Await(w, id, WithStage(w.pending[id], Answered(Refused))))
  {
    assert PendingOk(w.revisions, w.pending[id]);
    SetPending(env, w, id, WithStage(w.pending[id], Answered(Refused)));
  }

  lemma PressStatesStep(env: Environment, w: World, step: Step)
    requires Inv(env, w) && Enabled(env, w, step) && IsPress(step)
    ensures StatesOk(env, DoPress(env, w, step))
  {
    match step
    case Open(c, r) => OpenStates(env, w, c, r);
    case PressAuthoring(c, d) => PressAuthoringStates(env, w, c, d);
    case PressPrepare(c, hasOperation) => PressPrepareStates(env, w, c, hasOperation);
    case PressReapply(c) => ReapplyStates(env, w, c);
    case PressDiscard(c) => DiscardStates(env, w, c);
    case _ => PressStates(env, w, step);
  }

  lemma NetworkStatesStep(env: Environment, w: World, step: Step)
    requires Inv(env, w) && Enabled(env, w, step) && !IsPress(step)
    ensures StatesOk(env, DoNetwork(env, w, step))
  {
    match step
    case AuthoringReply(id, strategy) => AuthoringStates(env, w, id, strategy);
    case ServerSave(id, newId) => ServerStates(env, w, id, newId);
    case ServerRefuse(id) => RefuseStates(env, w, id);
    case LoseConnection(id) => LostStates(env, w, id);
    case Deliver(id) =>
      var p := w.pending[id];
      if p.Saving? { DeliverSavingStates(env, w, id, p); }
      else if p.PrepareSaving? { DeliverPrepareStates(env, w, id, p); }
      else { DeliverRefreshStates(env, w, id, p); }
    case PreflightReply(id, executable) => PreflightStates(env, w, id, executable);
    case ExecutionDone(id, succeeded) => ExecutionDoneStates(env, w, id, succeeded);
    case _ => HeadStates(env, w, step);
  }

  // ----- quick tests and request numbers -----

  lemma DropRun(w: World, id: RequestId)
    requires RunsOk(w)
    ensures Decided(w.revisions, w.pending - {id}, w.issued, w.executions, w.failedRuns)
  {
  }

  /** A handler moves to another await; a quick test in it was undecided before. */
  lemma KeepRun(w: World, id: RequestId, p: Pending)
    requires RunsOk(w) && id in w.pending && (Undecided(p) ==> Undecided(w.pending[id]))
    ensures Decided(w.revisions, w.pending[id := p], w.issued, w.executions, w.failedRuns)
  {
  }

  lemma SuspendRun(w: World, p: Pending)
    requires RunsOk(w)
    ensures Decided(w.revisions, w.pending[w.issued := p], w.issued + 1, w.executions, w.failedRuns)
  {
  }

  lemma FailRun(w: World, id: RequestId)
    requires RunsOk(w) && id in w.pending && Undecided(w.pending[id])
    ensures Decided(w.revisions, w.pending - {id}, w.issued, w.executions, w.failedRuns + {id})
  {
  }

  lemma ExecuteRun(w: World, id: RequestId, at: Captured, e: Execution)
    requires RunsOk(w) && id in w.pending && Undecided(w.pending[id])
    requires Stored(w.revisions, e.revisionId, e.shown)
    ensures Decided(w.revisions, w.pending[id := Executing(at)], w.issued, w.executions[id := e], w.failedRuns)
  {
  }

  lemma GrowRuns(w: World, store: Store)
    requires RunsOk(w) && Grows(w.revisions, store)
    ensures Decided(store, w.pending, w.issued, w.executions, w.failedRuns)
  {
  }

  lemma PressRuns(env: Environment, w: World, step: Step)
    requires RunsOk(w) && Enabled(env, w, step) && IsPress(step)
    ensures RunsOk(DoPress(env, w, step))
  {
    var s := if step.client in w.clients then w.clients[step.client] else Opened(w.revisions[step.revision]);
    var at := Captured(step.client, s);
    match step
    case PressAuthoring(c, d) => SuspendRun(w, Authoring(at, s.sequence + 1, d));
    case PressSave(c) => SuspendRun(w, Saving(at, Sent, false));
    case PressRefresh(c) => if s.conflict.Some? { SuspendRun(w, Refreshing(at, s.conflict.value, LoadingHead)); }
    case PressPrepare(c, _) => SuspendRun(w, PrepareAuthoring(at, s.sequence + 1));
    case PressRun(c) => SuspendRun(w, Preflight(at));
    case _ =>
  }

  lemma FailureRuns(w: World, id: RequestId, p: Pending)
    requires RunsOk(w) && id in w.pending && w.pending[id] == p
    requires (p.Saving? || p.PrepareSaving?) && p.at.client in w.clients
    ensures RunsOk(SaveFailedAt(w, id, p))
  {
    DropRun(w, id);
    if p.Saving? && p.forRun {
      FailRun(w, id);
    }
  }

  lemma AuthoringRuns(env: Environment, w: World, id: RequestId, strategy: Option<Strategy>)
    requires RunsOk(w) && Enabled(env, w, AuthoringReply(id, strategy))
    ensures RunsOk(DoAuthoringReply(env, w, id, strategy))
  {
    var p := w.pending[id];
    DropRun(w, id);
    if p.PrepareAuthoring? && strategy.Some? {
      KeepRun(w, id, PrepareSaving(p.at, p.number, strategy.value, Sent));
    }
  }

  lemma StageRun(w: World, id: RequestId, stage: Stage)
    requires RunsOk(w) && id in w.pending
    ensures Decided(w.revisions, w.pending[id := WithStage(w.pending[id], stage)], w.issued, w.executions, w.failedRuns)
  {
    KeepRun(w, id, WithStage(w.pending[id], stage));
  }

  lemma ServerRuns(env: Environment, w: World, id: RequestId, newId: RevisionId)
    requires RunsOk(w) && Enabled(env, w, ServerSave(id, newId))
    ensures RunsOk(DoServerSave(env, w, id, newId))
  {
    var content := SaveBody(w.pending[id]).value;
    var head := w.revisions[Head(w)];
    if w.pending[id].at.state.revisionId != Head(w) {
      StageRun(w, id, Answered(Stale));
    } else if head.content == content {
      StageRun(w, id, Answered(Accepted(head)));
    } else {
      var r := Revision(newId, Some(Head(w)), content, env.hash(content));
      GrowRuns(w, w.revisions[newId := r]);
      StageRun(w.(revisions := w.revisions[newId := r]), id, Answered(Accepted(r)));
    }
  }

  lemma LostRuns(env: Environment, w: World, id: RequestId)
    requires RunsOk(w) && Enabled(env, w, LoseConnection(id))
    ensures RunsOk(DoLoseConnection(w, id))
  {
    var p := w.pending[id];
    FailureRuns(w, id, p);
    if p.stage.Sent? {
      SuspendRun(SaveFailedAt(w, id, p), Orphaned(p.at, SaveBody(p).value));
    }
  }

  lemma DeliverSavingRuns(env: Environment, w: World, id: RequestId, p: Pending)
    requires RunsOk(w) && id in w.pending && p == w.pending[id] && p.Saving? && p.at.client in w.clients
    requires PendingOk(w.revisions, p)
    ensures RunsOk(DeliverSaving(env, w, id, p))
  {
    DropRun(w, id);
    match p.stage
    case Answered(Accepted(r)) =>
      if p.forRun { ExecuteRun(w, id, p.at, Execution(r.id, p.at.state.canonical)); }
    case Answered(Stale) => StageRun(w, id, LoadingHead);
    case HeadLoaded(_) => if p.forRun { FailRun(w, id); }
    case _ => FailureRuns(w, id, p);
  }

  lemma DeliverPreparedRuns(env: Environment, w: World, id: RequestId, p: Pending)
    requires RunsOk(w) && id in w.pending && p == w.pending[id] && p.PrepareSaving? && p.at.client in w.clients
    ensures RunsOk(DeliverPrepared(env, w, id, p))
  {
    DropRun(w, id);
    match p.stage
    case Answered(Refused) => FailureRuns(w, id, p);
    case Answered(Stale) => StageRun(w, id, LoadingHead);
    case _ =>
  }

  lemma DeliverRuns(env: Environment, w: World, id: RequestId)
    requires Inv(env, w) && Enabled(env, w, Deliver(id))
    ensures RunsOk(DoDeliver(env, w, id))
  {
    var p := w.pending[id];
    assert PendingOk(w.revisions, p);
    if p.Saving? { DeliverSavingRuns(env, w, id, p); }
    else if p.PrepareSaving? { DeliverPreparedRuns(env, w, id, p); }
    else { DropRun(w, id); }
  }

  lemma PreflightRuns(env: Environment, w: World, id: RequestId, executable: bool)
    requires Inv(env, w) && id in w.pending && w.pending[id].Preflight? && w.pending[id].at.client in w.clients
    ensures RunsOk(DoPreflightReply(w, id, executable))
  {
    var at := w.pending[id].at;
    assert PendingOk(w.revisions, w.pending[id]);
    if !executable || PersistDecision(at.state) == NotReady {
      FailRun(w, id);
    } else if !at.state.dirty {
      ExecuteRun(w, id, at, Execution(at.state.revisionId, at.state.canonical));
    } else {
      KeepRun(w, id, Saving(at, Sent, true));
    }
  }

  lemma RepliesRuns(env: Environment, w: World, step: Step)
    requires Inv(env, w) && Enabled(env, w, step)
    requires step.ReadHead? || step.HeadUnavailable? || step.ExecutionDone? || step.ServerRefuse?
    ensures RunsOk(DoNetwork(env, w, step))
  {
    var id := step.request;
    var p := w.pending[id];
    DropRun(w, id);
    match step
    case HeadUnavailable(_) => if !p.Refreshing? { FailureRuns(w, id, p); }
    case ReadHead(_) => StageRun(w, id, HeadLoaded(w.revisions[Head(w)]));
    case ServerRefuse(_) => StageRun(w, id, Answered(Refused));
    case _ =>
  }

  lemma NetworkRuns(env: Environment, w: World, step: Step)
    requires Inv(env, w) && Enabled(env, w, step) && !IsPress(step)
    ensures RunsOk(DoNetwork(env, w, step))
  {
    match step
    case AuthoringReply(id, strategy) => AuthoringRuns(env, w, id, strategy);
    case ServerSave(id, newId) => ServerRuns(env, w, id, newId);
    case LoseConnection(id) => LostRuns(env, w, id);
    case Deliver(id) => DeliverRuns(env, w, id);
    case PreflightReply(id, executable) => PreflightRuns(env, w, id, executable);
    case _ => RepliesRuns(env, w, step);
  }

  // ----- request numbers, one building block at a time -----

  /** Editor c moves on without lowering its counter. */
  lemma PutTickets(w: World, c: ClientId, s: State)
    requires NumbersOk(w) && (c in w.clients ==> w.clients[c].sequence <= s.sequence)
    ensures TicketsOk(w.clients[c := s], w.pending)
  {
  }

  lemma DropTicket(w: World, id: RequestId)
    requires NumbersOk(w)
    ensures TicketsOk(w.clients, w.pending - {id})
  {
  }

  /** A handler moves to another await and keeps its number, or has none. */
  lemma KeepTicket(w: World, id: RequestId, p: Pending)
    requires NumbersOk(w)
    requires Ticket(p).None? || (id in w.pending && Ticket(p) == Ticket(w.pending[id]))
    ensures TicketsOk(w.clients, w.pending[id := p])
  {
  }

  /** A new request takes the next number of its editor. */
  lemma NewTicket(w: World, c: ClientId, s: State, id: RequestId, p: Pending)
    requires NumbersOk(w) && c in w.clients && id !in w.pending
    requires s.sequence == w.clients[c].sequence + 1 && Ticket(p) == Some((c, s.sequence))
    ensures TicketsOk(w.clients[c := s], w.pending[id := p])
  {
    forall j | j in w.pending ensures Ticket(w.pending[j]) != Ticket(p) {
      assert Ticket(w.pending[j]).Some? ==> TicketIssued(w.clients, Ticket(w.pending[j]).value);
    }
  }

  lemma PutDropTickets(w: World, c: ClientId, s: State, id: RequestId)
    requires NumbersOk(w) && (c in w.clients ==> w.clients[c].sequence <= s.sequence)
    ensures TicketsOk(w.clients[c := s], w.pending - {id})
  {
    PutTickets(w, c, s);
    DropTicket(Put(w, c, s), id);
  }

  lemma PutKeepTickets(w: World, c: ClientId, s: State, id: RequestId, p: Pending)
    requires NumbersOk(w) && (c in w.clients ==> w.clients[c].sequence <= s.sequence) && Ticket(p).None?
    ensures TicketsOk(w.clients[c := s], w.pending[id := p])
  {
    PutTickets(w, c, s);
    KeepTicket(Put(w, c, s), id, p);
  }

  lemma PressNumbers(env: Environment, w: World, step: Step)
    requires NumbersOk(w) && RunsOk(w) && Enabled(env, w, step) && IsPress(step)
    ensures NumbersOk(DoPress(env, w, step))
  {
    var s := if step.client in w.clients then w.clients[step.client] else Opened(w.revisions[step.revision]);
    var at := Captured(step.client, s);
    match step
    case Open(c, r) => PutTickets(w, c, s);
    case PressAuthoring(c, d) => NewTicket(w, c, Issued(s), w.issued, Authoring(at, s.sequence + 1, d));
    case PressSave(c) => PutKeepTickets(w, c, s.(status := Updating), w.issued, Saving(at, Sent, false));
    case PressRefresh(c) =>
      if s.conflict.Some? { KeepTicket(w, w.issued, Refreshing(at, s.conflict.value, LoadingHead)); }
    case PressReapply(c) => PutTickets(w, c, Reapplied(s));
    case PressDiscard(c) => PutTickets(w, c, Discarded(s));
    case ReportWorking(c, unfinished) => PutTickets(w, c, s.(status := if unfinished then Unfinished else Saved));
    case PressPrepare(c, _) =>
      PutTickets(w, c, s.(panel := Setup));
      NewTicket(w, c, Issued(s), w.issued, PrepareAuthoring(at, s.sequence + 1));
    case PressRun(c) => KeepTicket(w, w.issued, Preflight(at));
  }

  lemma AuthoringNumbers(env: Environment, w: World, id: RequestId, strategy: Option<Strategy>)
    requires NumbersOk(w) && Enabled(env, w, AuthoringReply(id, strategy))
    ensures NumbersOk(DoAuthoringReply(env, w, id, strategy))
  {
    var p := w.pending[id];
    var c := p.at.client;
    if p.PrepareAuthoring? && strategy.Some? {
      DropTicket(w, id);
      KeepTicket(w, id, PrepareSaving(p.at, p.number, strategy.value, Sent));
    } else {
      PutDropTickets(w, c, DoAuthoringReply(env, w, id, strategy).clients[c], id);
    }
  }

  lemma WithStageTicket(p: Pending, stage: Stage)
    ensures Ticket(WithStage(p, stage)) == Ticket(p)
  {
  }

  lemma ServerNumbers(env: Environment, w: World, id: RequestId, newId: RevisionId)
    requires NumbersOk(w) && Enabled(env, w, ServerSave(id, newId))
    ensures NumbersOk(DoServerSave(env, w, id, newId))
  {
    var p' := DoServerSave(env, w, id, newId).pending[id];
    assert Ticket(p') == Ticket(w.pending[id]);
    KeepTicket(w, id, p');
  }

  lemma FailureNumbers(w: World, id: RequestId, p: Pending)
    requires NumbersOk(w) && (p.Saving? || p.PrepareSaving?) && p.at.client in w.clients
    ensures NumbersOk(SaveFailedAt(w, id, p))
  {
    PutDropTickets(w, p.at.client, SaveFailedAt(w, id, p).clients[p.at.client], id);
  }

  lemma LostNumbers(env: Environment, w: World, id: RequestId)
    requires NumbersOk(w) && Enabled(env, w, LoseConnection(id))
    ensures NumbersOk(DoLoseConnection(w, id))
  {
    var p := w.pending[id];
    FailureNumbers(w, id, p);
    if p.stage.Sent? {
      KeepTicket(SaveFailedAt(w, id, p), w.issued, Orphaned(p.at, SaveBody(p).value));
    }
  }

  lemma DeliverSavingNumbers(env: Environment, w: World, id: RequestId, p: Pending)
    requires NumbersOk(w) && p.Saving? && p.at.client in w.clients
    ensures NumbersOk(DeliverSaving(env, w, id, p))
  {
    match p.stage
    case Answered(Accepted(_)) => AcceptedNumbers(env, w, id, p);
    case Answered(Stale) => KeepTicket(w, id, WithStage(p, LoadingHead));
    case HeadLoaded(_) => PutDropTickets(w, p.at.client, DeliverSaving(env, w, id, p).clients[p.at.client], id);
    case _ => FailureNumbers(w, id, p);
  }

  lemma AcceptedNumbers(env: Environment, w: World, id: RequestId, p: Pending)
    requires NumbersOk(w) && p.Saving? && p.at.client in w.clients
    requires p.stage.Answered? && p.stage.reply.Accepted?
    ensures NumbersOk(DeliverSaving(env, w, id, p))
  {
    var next := WithRevision(w.clients[p.at.client], p.stage.reply.revision);
    PutDropTickets(w, p.at.client, next, id);
    PutKeepTickets(w, p.at.client, next, id, Executing(p.at));
  }

  lemma DeliverPreparedNumbers(env: Environment, w: World, id: RequestId, p: Pending)
    requires NumbersOk(w) && p.PrepareSaving? && p.at.client in w.clients && id in w.pending && w.pending[id] == p
    ensures NumbersOk(DeliverPrepared(env, w, id, p))
  {
    match p.stage
    case Answered(Stale) =>
      DropTicket(w, id);
      KeepTicket(w, id, WithStage(p, LoadingHead));
    case Answered(Refused) => FailureNumbers(w, id, p);
    case _ => PutDropTickets(w, p.at.client, DeliverPrepared(env, w, id, p).clients[p.at.client], id);
  }

  lemma DeliverNumbers(env: Environment, w: World, id: RequestId)
    requires NumbersOk(w) && Enabled(env, w, Deliver(id))
    ensures NumbersOk(DoDeliver(env, w, id))
  {
    var p := w.pending[id];
    if p.Saving? { DeliverSavingNumbers(env, w, id, p); }
    else if p.PrepareSaving? { DeliverPreparedNumbers(env, w, id, p); }
    else {
      PutDropTickets(w, p.at.client, DeliverRefreshed(env, w, id, p).clients[p.at.client], id);
      DropTicket(w, id);
    }
  }

  lemma RepliesNumbers(env: Environment, w: World, step: Step)
    requires NumbersOk(w) && Enabled(env, w, step)
    requires step.ReadHead? || step.HeadUnavailable? || step.PreflightReply? || step.ExecutionDone?
        || step.ServerRefuse?
    ensures NumbersOk(DoNetwork(env, w, step))
  {
    var id := step.request;
    var p := w.pending[id];
    match step
    case HeadUnavailable(_) => if p.Refreshing? { DropTicket(w, id); } else { FailureNumbers(w, id, p); }
    case ReadHead(_) =>
      WithStageTicket(p, HeadLoaded(w.revisions[Head(w)]));
      KeepTicket(w, id, WithStage(p, HeadLoaded(w.revisions[Head(w)])));
    case ServerRefuse(_) =>
      WithStageTicket(p, Answered(Refused));
      KeepTicket(w, id, WithStage(p, Answered(Refused)));
    case PreflightReply(_, executable) =>
      var w' := DoPreflightReply(w, id, executable);
      if executable && PersistDecision(p.at.state) != NotReady {
        PutKeepTickets(w, p.at.client, w'.clients[p.at.client], id, w'.pending[id]);
      }
      else { PutDropTickets(w, p.at.client, w'.clients[p.at.client], id); }
    case ExecutionDone(_, succeeded) =>
      PutDropTickets(w, p.at.client, DoExecutionDone(w, id, succeeded).clients[p.at.client], id);
  }

  lemma NetworkNumbers(env: Environment, w: World, step: Step)
    requires NumbersOk(w) && Enabled(env, w, step) && !IsPress(step)
    ensures NumbersOk(DoNetwork(env, w, step))
  {
    match step
    case AuthoringReply(id, strategy) => AuthoringNumbers(env, w, id, strategy);
    case ServerSave(id, newId) => ServerNumbers(env, w, id, newId);
    case LoseConnection(id) => LostNumbers(env, w, id);
    case Deliver(id) => DeliverNumbers(env, w, id);
    case _ => RepliesNumbers(env, w, step);
  }

  // ----- every run -----

  lemma InvStep(env: Environment, w: World, step: Step)
    requires Inv(env, w) && Enabled(env, w, step)
    ensures Inv(env, Do(env, w, step))
  {
    StoreStep(env, w, step);
    if IsPress(step) {
      PressStatesStep(env, w, step);
      PressRuns(env, w, step);
      PressNumbers(env, w, step);
    } else {
      NetworkStatesStep(env, w, step);
      NetworkRuns(env, w, step);
      NetworkNumbers(env, w, step);
    }
  }

  lemma InvInitial(env: Environment, id: RevisionId, content: Strategy)
    ensures Inv(env, Initial(env, id, content))
  {
  }

  lemma {:induction false} InvRuns(env: Environment, w: World, steps: seq<Step>, last: World)
    requires Inv(env, w) && Runs(env, w, steps, last)
    ensures Inv(env, last)
    decreases |steps|
  {
    if steps != [] {
      InvStep(env, w, steps[0]);
      InvRuns(env, Do(env, w, steps[0]), steps[1..], last);
    }
  }

  lemma InvReachable(env: Environment, w: World)
    requires Reachable(env, w)
    ensures Inv(env, w)
  {
    var id, content, steps :| Runs(env, Initial(env, id, content), steps, w);
    InvInitial(env, id, content);
    InvRuns(env, Initial(env, id, content), steps, w);
  }
}
