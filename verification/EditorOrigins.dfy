/** On which revision the strategy that a save brings was authored. */
module EditorOrigins {
  import opened Options
  import opened Editor
  import opened EditorProtocol
  import opened EditorSafety

  /** What is remembered beside a world: for each editor the revision on which
      what it shows was authored, for each request that of what it captured, and
      for each accepted save that of what it brought. */
  datatype Origins = Origins(shown: map<ClientId, RevisionId>, captured: map<RequestId, RevisionId>,
                             saves: seq<RevisionId>)

  function ShownBy(t: Origins, c: ClientId): RevisionId {
    if c in t.shown then t.shown[c] else ""
  }

  function CapturedBy(t: Origins, id: RequestId): RevisionId {
    if id in t.captured then t.captured[id] else ""
  }

  // ----- how origins move -----

  /** The step makes the editor show the strategy that an authoring request answers. */
  predicate Adopts(w: World, step: Step) {
    && step.AuthoringReply? && step.strategy.Some?
    && step.request in w.pending && w.pending[step.request].Authoring?
    && w.pending[step.request].at.client in w.clients
    && w.pending[step.request].number == w.clients[w.pending[step.request].at.client].sequence
  }

  /** The revision that a delivered save makes the editor show, if it does. */
  function DeliveredRevision(w: World, id: RequestId): Option<Revision>
    requires id in w.pending && w.pending[id].at.client in w.clients
  {
    var p := w.pending[id];
    match p
    case Saving(_, Answered(Accepted(r)), _) => Some(r)
    case PrepareSaving(_, number, _, Answered(Accepted(r))) =>
      if number == w.clients[p.at.client].sequence then Some(r) else None
    case _ => None
  }

  function ShownAfter(env: Environment, w: World, t: Origins, step: Step): map<ClientId, RevisionId>
    requires Enabled(env, w, step)
  {
    match step
    case Open(c, r) => t.shown[c := r]
    case PressReapply(c) =>
      var conflict := w.clients[c].conflict;
      if conflict.Some? && conflict.value.merged.Some? then t.shown[c := conflict.value.currentRevisionId] else t.shown
    case PressDiscard(c) =>
      var conflict := w.clients[c].conflict;
      if conflict.Some? then t.shown[c := conflict.value.current.id] else t.shown
    case AuthoringReply(id, _) =>
      if Adopts(w, step) then t.shown[w.pending[id].at.client := CapturedBy(t, id)] else t.shown
    case Deliver(id) =>
      var r := DeliveredRevision(w, id);
      if r.Some? then t.shown[w.pending[id].at.client := r.value.id] else t.shown
    case _ => t.shown
  }

  /** A new request captures what its editor shows; a lost one leaves its own behind. */
  function CapturedAfter(w: World, t: Origins, step: Step): map<RequestId, RevisionId> {
    match step
    case PressAuthoring(c, _) => t.captured[w.issued := ShownBy(t, c)]
    case PressSave(c) => t.captured[w.issued := ShownBy(t, c)]
    case PressRefresh(c) => t.captured[w.issued := ShownBy(t, c)]
    case PressPrepare(c, _) => t.captured[w.issued := ShownBy(t, c)]
    case PressRun(c) => t.captured[w.issued := ShownBy(t, c)]
    case LoseConnection(id) => t.captured[w.issued := CapturedBy(t, id)]
    case _ => t.captured
  }

  /** The step appends a revision. */
  predicate Appends(env: Environment, w: World, step: Step)
    requires Enabled(env, w, step)
  {
    && step.ServerSave?
    && w.pending[step.request].at.state.revisionId == Head(w)
    && Some(w.revisions[Head(w)].content) != SaveBody(w.pending[step.request])
  }

  function Traced(env: Environment, w: World, t: Origins, step: Step): Origins
    requires Enabled(env, w, step)
  {
    Origins(ShownAfter(env, w, t, step), CapturedAfter(w, t, step),
            if Appends(env, w, step) then t.saves + [CapturedBy(t, step.request)] else t.saves)
  }

  // ----- being in step -----

  ghost predicate ClientsInStep(clients: map<ClientId, State>, shown: map<ClientId, RevisionId>) {
    forall c | c in clients :: c in shown && shown[c] == clients[c].revisionId
  }

  ghost predicate PendingInStep(pending: map<RequestId, Pending>, captured: map<RequestId, RevisionId>) {
    forall id | id in pending :: id in captured && captured[id] == pending[id].at.state.revisionId
  }

  ghost predicate SavesInStep(saves: seq<AcceptedSave>, origins: seq<RevisionId>) {
    |origins| == |saves| && forall i | 0 <= i < |saves| :: origins[i] == saves[i].parent
  }

  /** Every editor shows, and every request carries, a strategy authored on the
      very revision it would replace; so did every accepted save. */
  ghost predicate InStep(w: World, t: Origins) {
    && ClientsInStep(w.clients, t.shown)
    && PendingInStep(w.pending, t.captured)
    && SavesInStep(w.saves, t.saves)
  }

  /** The step adopts an answer to a request that its editor made on another
      revision than the one it is on now. */
  predicate AdoptsFromElsewhere(w: World, step: Step) {
    && Adopts(w, step)
    && w.pending[step.request].at.state.revisionId != w.clients[w.pending[step.request].at.client].revisionId
  }

  /** The editor is on the same revision, with the same base. */
  predicate SamePlace(s: State, t: State) {
    s.revisionId == t.revisionId && s.base == t.base
  }

  predicate IsAt(s: State, r: Revision) {
    s.revisionId == r.id && s.base == r.content
  }

  // ----- building blocks -----

  lemma MoveClient(clients: map<ClientId, State>, shown: map<ClientId, RevisionId>, c: ClientId, s: State,
                   r: RevisionId)
    requires ClientsInStep(clients, shown)
    ensures ClientsInStep(clients[c := s], shown[c := r]) <==> s.revisionId == r
  {
    if ClientsInStep(clients[c := s], shown[c := r]) {
      assert c in clients[c := s];
    }
  }

  lemma KeepClient(clients: map<ClientId, State>, shown: map<ClientId, RevisionId>, c: ClientId, s: State)
    requires ClientsInStep(clients, shown) && c in clients && s.revisionId == clients[c].revisionId
    ensures ClientsInStep(clients[c := s], shown)
  {
  }

  lemma KeepRequest(pending: map<RequestId, Pending>, captured: map<RequestId, RevisionId>, id: RequestId, p: Pending)
    requires PendingInStep(pending, captured) && id in pending && p.at == pending[id].at
    ensures PendingInStep(pending[id := p], captured)
  {
  }

  lemma DropRequest(pending: map<RequestId, Pending>, captured: map<RequestId, RevisionId>, id: RequestId)
    requires PendingInStep(pending, captured)
    ensures PendingInStep(pending - {id}, captured)
  {
  }

  lemma NewRequest(pending: map<RequestId, Pending>, captured: map<RequestId, RevisionId>, id: RequestId, p: Pending,
                   r: RevisionId)
    requires PendingInStep(pending, captured) && id !in pending && p.at.state.revisionId == r
    ensures PendingInStep(pending[id := p], captured[id := r])
    ensures PendingInStep(pending, captured[id := r])
  {
  }

  // ----- one step -----

  /** Press steps move only their own editor, and never out of step. */
  lemma PressClients(env: Environment, w: World, t: Origins, step: Step)
    requires Inv(env, w) && ClientsInStep(w.clients, t.shown) && Enabled(env, w, step) && IsPress(step)
    ensures ClientsInStep(DoPress(env, w, step).clients, ShownAfter(env, w, t, step))
  {
    if step.Open? {
      MoveClient(w.clients, t.shown, step.client, Opened(w.revisions[step.revision]), step.revision);
    } else if step.PressReapply? {
      ReapplyClient(env, w, t, step.client);
    } else if step.PressDiscard? {
      DiscardClient(env, w, t, step.client);
    } else {
      PressKeepsRevision(env, w, step);
      KeepClient(w.clients, t.shown, step.client, DoPress(env, w, step).clients[step.client]);
    }
  }

  lemma PressKeepsRevision(env: Environment, w: World, step: Step)
    requires Enabled(env, w, step) && IsPress(step) && !step.Open? && !step.PressReapply? && !step.PressDiscard?
    ensures step.client in w.clients
    ensures
      var clients := DoPress(env, w, step).clients;
      && step.client in clients && clients == w.clients[step.client := clients[step.client]]
      && SamePlace(clients[step.client], w.clients[step.client])
  {
  }

  lemma ReapplyClient(env: Environment, w: World, t: Origins, c: ClientId)
    requires ClientsInStep(w.clients, t.shown) && c in w.clients
    ensures ClientsInStep(DoPressReapply(w, c).clients, ShownAfter(env, w, t, PressReapply(c)))
  {
    var s := w.clients[c];
    if s.conflict.Some? && s.conflict.value.merged.Some? {
      MoveClient(w.clients, t.shown, c, Reapplied(s), s.conflict.value.currentRevisionId);
    } else {
      KeepClient(w.clients, t.shown, c, Reapplied(s));
    }
  }

  lemma DiscardClient(env: Environment, w: World, t: Origins, c: ClientId)
    requires ClientsInStep(w.clients, t.shown) && c in w.clients
    ensures ClientsInStep(DoPressDiscard(w, c).clients, ShownAfter(env, w, t, PressDiscard(c)))
  {
    var s := w.clients[c];
    if s.conflict.Some? {
      MoveClient(w.clients, t.shown, c, Discarded(s), s.conflict.value.current.id);
    } else {
      KeepClient(w.clients, t.shown, c, Discarded(s));
    }
  }

  /** Press steps issue at most one request, which captures what is shown. */
  lemma PressPending(env: Environment, w: World, t: Origins, step: Step)
    requires RunsOk(w) && InStep(w, t) && Enabled(env, w, step) && IsPress(step)
    ensures PendingInStep(DoPress(env, w, step).pending, CapturedAfter(w, t, step))
  {
    var captured := CapturedAfter(w, t, step);
    PressIssues(env, w, step);
    if DoPress(env, w, step).pending != w.pending {
      var p := DoPress(env, w, step).pending[w.issued];
      assert captured == t.captured[w.issued := ShownBy(t, step.client)];
      NewRequest(w.pending, t.captured, w.issued, p, ShownBy(t, step.client));
    } else if captured != t.captured {
      UnusedRequest(w.pending, t.captured, w.issued, ShownBy(t, step.client));
    }
  }

  lemma UnusedRequest(pending: map<RequestId, Pending>, captured: map<RequestId, RevisionId>, id: RequestId,
                      r: RevisionId)
    requires PendingInStep(pending, captured) && id !in pending
    ensures PendingInStep(pending, captured[id := r])
  {
  }

  /** The steps that capture what is shown. */
  predicate Captures(step: Step) {
    step.PressAuthoring? || step.PressSave? || step.PressRefresh? || step.PressPrepare? || step.PressRun?
  }

  lemma PressIssues(env: Environment, w: World, step: Step)
    requires Enabled(env, w, step) && IsPress(step)
    ensures
      var pending := DoPress(env, w, step).pending;
      || pending == w.pending
      || (&& Captures(step) && w.issued in pending && step.client in w.clients
          && pending == w.pending[w.issued := pending[w.issued]]
          && pending[w.issued].at == Captured(step.client, w.clients[step.client]))
  {
  }

  /** Where a network step is about an editor's request, its editor. */
  function OwnerOf(w: World, id: RequestId): ClientId {
    if id in w.pending then w.pending[id].at.client else 0
  }

  lemma AuthoringClients(env: Environment, w: World, t: Origins, step: Step)
    requires InStep(w, t) && Enabled(env, w, step) && step.AuthoringReply?
    ensures ClientsInStep(DoAuthoringReply(env, w, step.request, step.strategy).clients, ShownAfter(env, w, t, step))
       <==> !AdoptsFromElsewhere(w, step)
  {
    var id := step.request;
    var c, s := w.pending[id].at.client, w.clients[w.pending[id].at.client];
    var clients := DoAuthoringReply(env, w, id, step.strategy).clients;
    AuthoringKeepsRevision(env, w, id, step.strategy);
    if Adopts(w, step) {
      MoveClient(w.clients, t.shown, c, clients[c], CapturedBy(t, id));
    } else {
      KeepClient(w.clients, t.shown, c, clients[c]);
    }
  }

  lemma AuthoringKeepsRevision(env: Environment, w: World, id: RequestId, strategy: Option<Strategy>)
    requires Enabled(env, w, AuthoringReply(id, strategy))
    ensures
      var c := w.pending[id].at.client;
      var clients := DoAuthoringReply(env, w, id, strategy).clients;
      && c in clients && clients == w.clients[c := clients[c]]
      && SamePlace(clients[c], w.clients[c])
  {
    var c := w.pending[id].at.client;
    assert w.clients == w.clients[c := w.clients[c]];
  }

  lemma DeliverClients(env: Environment, w: World, t: Origins, id: RequestId)
    requires InStep(w, t) && Enabled(env, w, Deliver(id))
    ensures ClientsInStep(DoDeliver(env, w, id).clients, ShownAfter(env, w, t, Deliver(id)))
  {
    var c := w.pending[id].at.client;
    var clients := DoDeliver(env, w, id).clients;
    DeliverMovesTo(env, w, id);
    var r := DeliveredRevision(w, id);
    if r.Some? {
      MoveClient(w.clients, t.shown, c, clients[c], r.value.id);
    } else {
      KeepClient(w.clients, t.shown, c, clients[c]);
    }
  }

  lemma DeliverMovesTo(env: Environment, w: World, id: RequestId)
    requires Enabled(env, w, Deliver(id))
    ensures
      var c := w.pending[id].at.client;
      var clients := DoDeliver(env, w, id).clients;
      var r := DeliveredRevision(w, id);
      && c in clients && clients == w.clients[c := clients[c]]
      && if r.Some? then IsAt(clients[c], r.value) else SamePlace(clients[c], w.clients[c])
  {
    var c := w.pending[id].at.client;
    assert w.clients == w.clients[c := w.clients[c]];
    var p := w.pending[id];
    if p.Saving? {
      SavingMovesTo(env, w, id, p);
    } else if p.PrepareSaving? {
      PrepareMovesTo(env, w, id, p);
    }
  }

  lemma SavingMovesTo(env: Environment, w: World, id: RequestId, p: Pending)
    requires p.Saving? && p.at.client in w.clients && id in w.pending && w.pending[id] == p
    ensures
      var c := p.at.client;
      var clients := DeliverSaving(env, w, id, p).clients;
      var r := DeliveredRevision(w, id);
      && c in clients && clients == w.clients[c := clients[c]]
      && if r.Some? then IsAt(clients[c], r.value) else SamePlace(clients[c], w.clients[c])
  {
    assert w.clients == w.clients[p.at.client := w.clients[p.at.client]];
  }

  lemma PrepareMovesTo(env: Environment, w: World, id: RequestId, p: Pending)
    requires p.PrepareSaving? && p.at.client in w.clients && id in w.pending && w.pending[id] == p
    ensures
      var c := p.at.client;
      var clients := DeliverPrepared(env, w, id, p).clients;
      var r := DeliveredRevision(w, id);
      && c in clients && clients == w.clients[c := clients[c]]
      && if r.Some? then IsAt(clients[c], r.value) else SamePlace(clients[c], w.clients[c])
  {
    assert w.clients == w.clients[p.at.client := w.clients[p.at.client]];
  }

  /** The other network steps leave every editor on its revision. */
  lemma NetworkKeepsRevision(env: Environment, w: World, step: Step)
    requires Enabled(env, w, step) && !IsPress(step) && !step.AuthoringReply? && !step.Deliver?
    requires OwnerOf(w, step.request) in w.clients
    ensures
      var c, clients := OwnerOf(w, step.request), DoNetwork(env, w, step).clients;
      c in clients && clients == w.clients[c := clients[c]] && SamePlace(clients[c], w.clients[c])
  {
    var id, c := step.request, OwnerOf(w, step.request);
    assert w.clients == w.clients[c := w.clients[c]];
    match step
    case LoseConnection(_) => FailureKeepsRevision(w, id, w.pending[id]);
    case HeadUnavailable(_) => if !w.pending[id].Refreshing? { FailureKeepsRevision(w, id, w.pending[id]); }
    case PreflightReply(_, executable) => PreflightKeepsRevision(w, id, executable);
    case ServerSave(_, newId) => assert DoServerSave(env, w, id, newId).clients == w.clients;
    case _ =>
  }

  lemma PreflightKeepsRevision(w: World, id: RequestId, executable: bool)
    requires id in w.pending && w.pending[id].Preflight? && w.pending[id].at.client in w.clients
    ensures
      var c, clients := w.pending[id].at.client, DoPreflightReply(w, id, executable).clients;
      c in clients && clients == w.clients[c := clients[c]] && SamePlace(clients[c], w.clients[c])
  {
  }

  lemma FailureKeepsRevision(w: World, id: RequestId, p: Pending)
    requires (p.Saving? || p.PrepareSaving?) && p.at.client in w.clients
    ensures
      var c, clients := p.at.client, SaveFailedAt(w, id, p).clients;
      c in clients && clients == w.clients[c := clients[c]] && SamePlace(clients[c], w.clients[c])
  {
  }

  lemma NetworkClients(env: Environment, w: World, t: Origins, step: Step)
    requires Inv(env, w) && InStep(w, t) && Enabled(env, w, step) && !IsPress(step)
    ensures ClientsInStep(DoNetwork(env, w, step).clients, ShownAfter(env, w, t, step))
        <==> !AdoptsFromElsewhere(w, step)
  {
    var id := step.request;
    if step.AuthoringReply? {
      AuthoringClients(env, w, t, step);
    } else if step.Deliver? {
      DeliverClients(env, w, t, id);
    } else {
      OwnerIsOpen(env, w, id);
      NetworkKeepsRevision(env, w, step);
      KeepClient(w.clients, t.shown, OwnerOf(w, id), DoNetwork(env, w, step).clients[OwnerOf(w, id)]);
    }
  }

  lemma OwnerIsOpen(env: Environment, w: World, id: RequestId)
    requires StatesOk(env, w) && id in w.pending
    ensures OwnerOf(w, id) in w.clients
  {
  }

  /** A network step ends a request, or moves it to another await with what it captured. */
  ghost predicate EndsOrKeeps(w: World, pending: map<RequestId, Pending>, id: RequestId) {
    && id in w.pending
    && (pending == w.pending - {id}
        || (id in pending && pending[id].at == w.pending[id].at && pending == w.pending[id := pending[id]]))
  }

  lemma DeliverPending(env: Environment, w: World, id: RequestId)
    requires Enabled(env, w, Deliver(id))
    ensures EndsOrKeeps(w, DoDeliver(env, w, id).pending, id)
  {
    var p := w.pending[id];
    if p.Saving? {
      assert EndsOrKeeps(w, DeliverSaving(env, w, id, p).pending, id);
    } else if p.PrepareSaving? {
      assert EndsOrKeeps(w, DeliverPrepared(env, w, id, p).pending, id);
    }
  }

  lemma NetworkEndsOrKeeps(env: Environment, w: World, step: Step)
    requires Enabled(env, w, step) && !IsPress(step) && !step.LoseConnection?
    ensures EndsOrKeeps(w, DoNetwork(env, w, step).pending, step.request)
  {
    match step
    case Deliver(id) => DeliverPending(env, w, id);
    case ServerSave(id, newId) => assert EndsOrKeeps(w, DoServerSave(env, w, id, newId).pending, id);
    case AuthoringReply(id, strategy) => assert EndsOrKeeps(w, DoAuthoringReply(env, w, id, strategy).pending, id);
    case PreflightReply(id, executable) => assert EndsOrKeeps(w, DoPreflightReply(w, id, executable).pending, id);
    case HeadUnavailable(id) => assert EndsOrKeeps(w, DoHeadUnavailable(env, w, id).pending, id);
    case _ =>
  }

  lemma LostPending(w: World, t: Origins, id: RequestId)
    requires RunsOk(w) && PendingInStep(w.pending, t.captured)
    requires id in w.pending && (w.pending[id].Saving? || w.pending[id].PrepareSaving?)
        && w.pending[id].at.client in w.clients
    ensures PendingInStep(DoLoseConnection(w, id).pending, CapturedAfter(w, t, LoseConnection(id)))
  {
    var p := w.pending[id];
    DropRequest(w.pending, t.captured, id);
    var rest := w.pending - {id};
    NewRequest(rest, t.captured, w.issued, Preflight(p.at), CapturedBy(t, id));
    if p.stage.Sent? {
      NewRequest(rest, t.captured, w.issued, Orphaned(p.at, SaveBody(p).value), CapturedBy(t, id));
    }
  }

  lemma NetworkPending(env: Environment, w: World, t: Origins, step: Step)
    requires RunsOk(w) && InStep(w, t) && Enabled(env, w, step) && !IsPress(step)
    ensures PendingInStep(DoNetwork(env, w, step).pending, CapturedAfter(w, t, step))
  {
    if step.LoseConnection? {
      LostPending(w, t, step.request);
    } else {
      NetworkEndsOrKeeps(env, w, step);
      var id, pending := step.request, DoNetwork(env, w, step).pending;
      if id in pending {
        KeepRequest(w.pending, t.captured, id, pending[id]);
      } else {
        DropRequest(w.pending, t.captured, id);
      }
    }
  }

  /** Only an appending server step adds to the saves. */
  lemma StepSaves(env: Environment, w: World, step: Step)
    requires Enabled(env, w, step)
    ensures
      var saves := Do(env, w, step).saves;
      if Appends(env, w, step) then
        saves == w.saves + [AcceptedSave(Head(w), step.newId, w.pending[step.request].at.state.base,
                                         SaveBody(w.pending[step.request]).value)]
      else saves == w.saves
  {
    match step
    case ServerSave(id, newId) =>
    case Deliver(id) => assert DoDeliver(env, w, id).saves == w.saves;
    case _ =>
  }

  lemma SavesStep(env: Environment, w: World, t: Origins, step: Step)
    requires InStep(w, t) && Enabled(env, w, step)
    ensures SavesInStep(Do(env, w, step).saves, Traced(env, w, t, step).saves)
  {
    StepSaves(env, w, step);
  }

  /** From an in-step world, exactly the steps that adopt an answer from elsewhere
      lead out of step. */
  lemma StepStaysIff(env: Environment, w: World, t: Origins, step: Step)
    requires Inv(env, w) && InStep(w, t) && Enabled(env, w, step)
    ensures InStep(Do(env, w, step), Traced(env, w, t, step)) <==> !AdoptsFromElsewhere(w, step)
  {
    SavesStep(env, w, t, step);
    if IsPress(step) {
      PressClients(env, w, t, step);
      PressPending(env, w, t, step);
    } else {
      NetworkClients(env, w, t, step);
      NetworkPending(env, w, t, step);
    }
  }

  // ----- whole runs -----

  function NothingYet(): Origins {
    Origins(map[], map[], [])
  }

  ghost function TracedRun(env: Environment, w: World, t: Origins, steps: seq<Step>, last: World): Origins
    requires Runs(env, w, steps, last)
    decreases |steps|
  {
    if steps == [] then t else TracedRun(env, Do(env, w, steps[0]), Traced(env, w, t, steps[0]), steps[1..], last)
  }

  /** Every world of the run is in step. */
  ghost predicate StaysInStep(env: Environment, w: World, t: Origins, steps: seq<Step>, last: World)
    requires Runs(env, w, steps, last)
    decreases |steps|
  {
    && InStep(w, t)
    && (steps != [] ==> StaysInStep(env, Do(env, w, steps[0]), Traced(env, w, t, steps[0]), steps[1..], last))
  }

  /** No step of the run adopts an answer to a request made on another revision. */
  ghost predicate NeverFromElsewhere(env: Environment, w: World, steps: seq<Step>, last: World)
    requires Runs(env, w, steps, last)
    decreases |steps|
  {
    steps != [] ==> !AdoptsFromElsewhere(w, steps[0]) && NeverFromElsewhere(env, Do(env, w, steps[0]), steps[1..], last)
  }

  lemma {:induction false} StaysIff(env: Environment, w: World, t: Origins, steps: seq<Step>, last: World)
    requires Inv(env, w) && InStep(w, t) && Runs(env, w, steps, last)
    ensures StaysInStep(env, w, t, steps, last) <==> NeverFromElsewhere(env, w, steps, last)
    decreases |steps|
  {
    if steps != [] {
      var next, u := Do(env, w, steps[0]), Traced(env, w, t, steps[0]);
      StepStaysIff(env, w, t, steps[0]);
      InvStep(env, w, steps[0]);
      if InStep(next, u) {
        StaysIff(env, next, u, steps[1..], last);
      } else {
        NotInStep(env, next, u, steps[1..], last);
      }
    }
  }

  lemma NotInStep(env: Environment, w: World, t: Origins, steps: seq<Step>, last: World)
    requires Runs(env, w, steps, last) && !InStep(w, t)
    ensures !StaysInStep(env, w, t, steps, last)
  {
  }

  lemma {:induction false} StaysToTheEnd(env: Environment, w: World, t: Origins, steps: seq<Step>, last: World)
    requires Runs(env, w, steps, last) && StaysInStep(env, w, t, steps, last)
    ensures InStep(last, TracedRun(env, w, t, steps, last))
    decreases |steps|
  {
    if steps != [] {
      StaysToTheEnd(env, Do(env, w, steps[0]), Traced(env, w, t, steps[0]), steps[1..], last);
    }
  }

  /** Whatever the editors show, capture and save is authored on the revision it
      would replace, all through a run, if and only if no editor ever adopts the
      answer to an edit that it requested on another revision. */
  lemma InStepIff(env: Environment, id: RevisionId, content: Strategy, steps: seq<Step>, last: World)
    requires Runs(env, Initial(env, id, content), steps, last)
    ensures StaysInStep(env, Initial(env, id, content), NothingYet(), steps, last)
       <==> NeverFromElsewhere(env, Initial(env, id, content), steps, last)
  {
    InvInitial(env, id, content);
    StaysIff(env, Initial(env, id, content), NothingYet(), steps, last);
  }

  /** In such a run every accepted save was authored on the revision it replaced. */
  lemma SavesWereAuthoredOnTheirParent(env: Environment, id: RevisionId, content: Strategy, steps: seq<Step>,
                                       last: World, i: nat)
    requires Runs(env, Initial(env, id, content), steps, last)
    requires NeverFromElsewhere(env, Initial(env, id, content), steps, last)
    requires i + 1 < |last.history|
    ensures
      var origins := TracedRun(env, Initial(env, id, content), NothingYet(), steps, last).saves;
      |origins| == |last.saves| == |last.history| - 1 && origins[i] == last.history[i]
  {
    InStepIff(env, id, content, steps, last);
    StaysToTheEnd(env, Initial(env, id, content), NothingYet(), steps, last);
    InvInitial(env, id, content);
    InvRuns(env, Initial(env, id, content), steps, last);
    assert SaveOk(last.revisions, last.history[i], last.history[i + 1], last.saves[i]);
  }
}
