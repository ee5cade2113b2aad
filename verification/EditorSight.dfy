/** Whether the author of a save had seen the content that the save replaced. */
module EditorSight {
  import opened Options
  import opened Editor
  import opened EditorProtocol
  import opened EditorSafety
  import opened EditorOrigins

  /** What is remembered beside a world: the contents that the strategy shown by each
      editor, captured by each request and brought by each accepted save has been
      derived from. */
  datatype Sight = Sight(shown: map<ClientId, set<Strategy>>, captured: map<RequestId, set<Strategy>>,
                         saves: seq<set<Strategy>>)

  function SeenBy(t: Sight, c: ClientId): set<Strategy> {
    if c in t.shown then t.shown[c] else {}
  }

  function SeenWhen(t: Sight, id: RequestId): set<Strategy> {
    if id in t.captured then t.captured[id] else {}
  }

  function ShownSight(env: Environment, w: World, t: Sight, step: Step): map<ClientId, set<Strategy>>
    requires Enabled(env, w, step)
  {
    match step
    case Open(c, r) => t.shown[c := {w.revisions[r].content}]
    case PressReapply(c) =>
      var conflict := w.clients[c].conflict;
      if conflict.Some? && conflict.value.merged.Some? then t.shown[c := {conflict.value.current.content}] else t.shown
    case PressDiscard(c) =>
      var conflict := w.clients[c].conflict;
      if conflict.Some? then t.shown[c := {conflict.value.current.content}] else t.shown
    case AuthoringReply(id, _) =>
      if Adopts(w, step) then t.shown[w.pending[id].at.client := SeenWhen(t, id)] else t.shown
    case Deliver(id) =>
      var r := DeliveredRevision(w, id);
      if r.Some? then t.shown[w.pending[id].at.client := SeenWhen(t, id) + {r.value.content}] else t.shown
    case _ => t.shown
  }

  /** A new request captures what is shown, which is derived from all that has been seen. */
  function Glance(w: World, t: Sight, c: ClientId): set<Strategy> {
    SeenBy(t, c) + if c in w.clients then {w.clients[c].canonical} else {}
  }

  function CapturedSight(w: World, t: Sight, step: Step): map<RequestId, set<Strategy>> {
    if IsPress(step) && Captures(step) then t.captured[w.issued := Glance(w, t, step.client)]
    else if step.LoseConnection? then t.captured[w.issued := SeenWhen(t, step.request)]
    else t.captured
  }

  function Saw(env: Environment, w: World, t: Sight, step: Step): Sight
    requires Enabled(env, w, step)
  {
    Sight(ShownSight(env, w, t, step), CapturedSight(w, t, step),
          if Appends(env, w, step) then t.saves + [SeenWhen(t, step.request)] else t.saves)
  }

  // ----- being in sight -----

  ghost predicate ClientsInSight(clients: map<ClientId, State>, shown: map<ClientId, set<Strategy>>) {
    forall c | c in clients :: c in shown && clients[c].base in shown[c]
  }

  ghost predicate PendingInSight(pending: map<RequestId, Pending>, captured: map<RequestId, set<Strategy>>) {
    forall id | id in pending :: id in captured && RequestInSight(pending[id], captured[id])
  }

  predicate RequestInSight(p: Pending, seen: set<Strategy>) {
    p.at.state.base in seen && p.at.state.canonical in seen
  }

  ghost predicate SavesInSight(saves: seq<AcceptedSave>, seen: seq<set<Strategy>>) {
    |seen| == |saves| && forall i | 0 <= i < |saves| :: saves[i].senderBase in seen[i]
  }

  /** Every editor shows, every request carries and every save brought a strategy
      that is derived from the content it replaces. */
  ghost predicate InSight(w: World, t: Sight) {
    && ClientsInSight(w.clients, t.shown)
    && PendingInSight(w.pending, t.captured)
    && SavesInSight(w.saves, t.saves)
  }

  /** The step adopts a strategy that is not derived from the editor's base. */
  predicate AdoptsUnseen(w: World, t: Sight, step: Step) {
    && Adopts(w, step)
    && w.clients[w.pending[step.request].at.client].base !in SeenWhen(t, step.request)
  }

  // ----- building blocks -----

  lemma MoveSight(clients: map<ClientId, State>, shown: map<ClientId, set<Strategy>>, c: ClientId, s: State,
                  seen: set<Strategy>)
    requires ClientsInSight(clients, shown)
    ensures ClientsInSight(clients[c := s], shown[c := seen]) <==> s.base in seen
  {
    if ClientsInSight(clients[c := s], shown[c := seen]) {
      assert c in clients[c := s];
    }
  }

  lemma KeepSight(clients: map<ClientId, State>, shown: map<ClientId, set<Strategy>>, c: ClientId, s: State)
    requires ClientsInSight(clients, shown) && c in clients && SamePlace(s, clients[c])
    ensures ClientsInSight(clients[c := s], shown)
  {
  }

  lemma KeepRequestSight(pending: map<RequestId, Pending>, captured: map<RequestId, set<Strategy>>, id: RequestId,
                         p: Pending)
    requires PendingInSight(pending, captured) && id in pending && p.at == pending[id].at
    ensures PendingInSight(pending[id := p], captured)
  {
  }

  lemma DropRequestSight(pending: map<RequestId, Pending>, captured: map<RequestId, set<Strategy>>, id: RequestId)
    requires PendingInSight(pending, captured)
    ensures PendingInSight(pending - {id}, captured)
  {
  }

  lemma NewRequestSight(pending: map<RequestId, Pending>, captured: map<RequestId, set<Strategy>>, id: RequestId,
                        p: Pending, seen: set<Strategy>)
    requires PendingInSight(pending, captured) && id !in pending && RequestInSight(p, seen)
    ensures PendingInSight(pending[id := p], captured[id := seen])
  {
  }

  lemma UnusedSight(pending: map<RequestId, Pending>, captured: map<RequestId, set<Strategy>>, id: RequestId,
                    seen: set<Strategy>)
    requires PendingInSight(pending, captured) && id !in pending
    ensures PendingInSight(pending, captured[id := seen])
  {
  }

  // ----- one step -----

  lemma ReapplySight(env: Environment, w: World, t: Sight, c: ClientId)
    requires ClientsInSight(w.clients, t.shown) && c in w.clients
    ensures ClientsInSight(DoPressReapply(w, c).clients, ShownSight(env, w, t, PressReapply(c)))
  {
    var s := w.clients[c];
    if s.conflict.Some? && s.conflict.value.merged.Some? {
      MoveSight(w.clients, t.shown, c, Reapplied(s), {s.conflict.value.current.content});
    } else {
      KeepSight(w.clients, t.shown, c, Reapplied(s));
    }
  }

  lemma DiscardSight(env: Environment, w: World, t: Sight, c: ClientId)
    requires ClientsInSight(w.clients, t.shown) && c in w.clients
    ensures ClientsInSight(DoPressDiscard(w, c).clients, ShownSight(env, w, t, PressDiscard(c)))
  {
    var s := w.clients[c];
    if s.conflict.Some? {
      MoveSight(w.clients, t.shown, c, Discarded(s), {s.conflict.value.current.content});
    } else {
      KeepSight(w.clients, t.shown, c, Discarded(s));
    }
  }

  lemma PressClientsSight(env: Environment, w: World, t: Sight, step: Step)
    requires ClientsInSight(w.clients, t.shown) && Enabled(env, w, step) && IsPress(step)
    ensures ClientsInSight(DoPress(env, w, step).clients, ShownSight(env, w, t, step))
  {
    if step.Open? {
      var r := w.revisions[step.revision];
      MoveSight(w.clients, t.shown, step.client, Opened(r), {r.content});
    } else if step.PressReapply? {
      ReapplySight(env, w, t, step.client);
    } else if step.PressDiscard? {
      DiscardSight(env, w, t, step.client);
    } else {
      PressKeepsRevision(env, w, step);
      KeepSight(w.clients, t.shown, step.client, DoPress(env, w, step).clients[step.client]);
    }
  }

  lemma PressPendingSight(env: Environment, w: World, t: Sight, step: Step)
    requires RunsOk(w) && InSight(w, t) && Enabled(env, w, step) && IsPress(step)
    ensures PendingInSight(DoPress(env, w, step).pending, CapturedSight(w, t, step))
  {
    PressIssues(env, w, step);
    if DoPress(env, w, step).pending != w.pending {
      var p := DoPress(env, w, step).pending[w.issued];
      NewRequestSight(w.pending, t.captured, w.issued, p, Glance(w, t, step.client));
    } else if CapturedSight(w, t, step) != t.captured {
      UnusedSight(w.pending, t.captured, w.issued, Glance(w, t, step.client));
    }
  }

  lemma NetworkClientsSight(env: Environment, w: World, t: Sight, step: Step)
    requires Inv(env, w) && InSight(w, t) && Enabled(env, w, step) && !IsPress(step)
    ensures ClientsInSight(DoNetwork(env, w, step).clients, ShownSight(env, w, t, step)) <==> !AdoptsUnseen(w, t, step)
  {
    var id := step.request;
    OwnerIsOpen(env, w, id);
    if step.AuthoringReply? {
      AuthoringSight(env, w, t, step);
    } else if step.Deliver? {
      DeliverSight(env, w, t, id);
    } else {
      NetworkKeepsRevision(env, w, step);
      KeepSight(w.clients, t.shown, OwnerOf(w, id), DoNetwork(env, w, step).clients[OwnerOf(w, id)]);
    }
  }

  lemma AuthoringSight(env: Environment, w: World, t: Sight, step: Step)
    requires InSight(w, t) && Enabled(env, w, step) && step.AuthoringReply?
    ensures ClientsInSight(DoAuthoringReply(env, w, step.request, step.strategy).clients, ShownSight(env, w, t, step))
        <==> !AdoptsUnseen(w, t, step)
  {
    var id := step.request;
    var c := w.pending[id].at.client;
    var clients := DoAuthoringReply(env, w, id, step.strategy).clients;
    AuthoringKeepsRevision(env, w, id, step.strategy);
    if Adopts(w, step) {
      MoveSight(w.clients, t.shown, c, clients[c], SeenWhen(t, id));
    } else {
      KeepSight(w.clients, t.shown, c, clients[c]);
    }
  }

  lemma DeliverSight(env: Environment, w: World, t: Sight, id: RequestId)
    requires InSight(w, t) && Enabled(env, w, Deliver(id))
    ensures ClientsInSight(DoDeliver(env, w, id).clients, ShownSight(env, w, t, Deliver(id)))
  {
    var c := w.pending[id].at.client;
    var clients := DoDeliver(env, w, id).clients;
    DeliverMovesTo(env, w, id);
    var r := DeliveredRevision(w, id);
    if r.Some? {
      MoveSight(w.clients, t.shown, c, clients[c], SeenWhen(t, id) + {r.value.content});
    } else {
      KeepSight(w.clients, t.shown, c, clients[c]);
    }
  }

  lemma LostSight(w: World, t: Sight, id: RequestId)
    requires RunsOk(w) && PendingInSight(w.pending, t.captured)
    requires id in w.pending && (w.pending[id].Saving? || w.pending[id].PrepareSaving?)
    requires w.pending[id].at.client in w.clients
    ensures PendingInSight(DoLoseConnection(w, id).pending, CapturedSight(w, t, LoseConnection(id)))
  {
    var p := w.pending[id];
    DropRequestSight(w.pending, t.captured, id);
    var rest := w.pending - {id};
    UnusedSight(rest, t.captured, w.issued, SeenWhen(t, id));
    if p.stage.Sent? {
      NewRequestSight(rest, t.captured, w.issued, Orphaned(p.at, SaveBody(p).value), SeenWhen(t, id));
    }
  }

  lemma NetworkPendingSight(env: Environment, w: World, t: Sight, step: Step)
    requires RunsOk(w) && InSight(w, t) && Enabled(env, w, step) && !IsPress(step)
    ensures PendingInSight(DoNetwork(env, w, step).pending, CapturedSight(w, t, step))
  {
    if step.LoseConnection? {
      LostSight(w, t, step.request);
    } else {
      NetworkEndsOrKeeps(env, w, step);
      var id, pending := step.request, DoNetwork(env, w, step).pending;
      if id in pending {
        KeepRequestSight(w.pending, t.captured, id, pending[id]);
      } else {
        DropRequestSight(w.pending, t.captured, id);
      }
    }
  }

  lemma SavesSight(env: Environment, w: World, t: Sight, step: Step)
    requires InSight(w, t) && Enabled(env, w, step)
    ensures SavesInSight(Do(env, w, step).saves, Saw(env, w, t, step).saves)
  {
    StepSaves(env, w, step);
  }

  /** From a world in sight, exactly the steps that adopt unseen work lead out of it. */
  lemma StepInSightIff(env: Environment, w: World, t: Sight, step: Step)
    requires Inv(env, w) && InSight(w, t) && Enabled(env, w, step)
    ensures InSight(Do(env, w, step), Saw(env, w, t, step)) <==> !AdoptsUnseen(w, t, step)
  {
    SavesSight(env, w, t, step);
    if IsPress(step) {
      PressClientsSight(env, w, t, step);
      PressPendingSight(env, w, t, step);
    } else {
      NetworkClientsSight(env, w, t, step);
      NetworkPendingSight(env, w, t, step);
    }
  }

  /** What a caller can check: an answer whose request captured the editor's base, as
      its own base or as what it showed, is never unseen. In particular the answer
      to an edit of the very content that the editor has saved meanwhile is not,
      although it was requested on another revision. */
  lemma UnseenOnlyFromElsewhere(env: Environment, w: World, t: Sight, step: Step)
    requires Inv(env, w) && InSight(w, t) && AdoptsUnseen(w, t, step)
    ensures AdoptsFromElsewhere(w, step)
    ensures
      var at := w.pending[step.request].at;
      at.state.base != w.clients[at.client].base && at.state.canonical != w.clients[at.client].base
  {
    var at := w.pending[step.request].at;
    assert PendingOk(w.revisions, w.pending[step.request]);
    assert StateOk(env, w.revisions, at.client in w.reapplied, w.clients[at.client]);
  }

  // ----- whole runs -----

  function NothingSeen(): Sight {
    Sight(map[], map[], [])
  }

  ghost function SightAfter(env: Environment, w: World, t: Sight, steps: seq<Step>, last: World): Sight
    requires Runs(env, w, steps, last)
    decreases |steps|
  {
    if steps == [] then t else SightAfter(env, Do(env, w, steps[0]), Saw(env, w, t, steps[0]), steps[1..], last)
  }

  /** Every world of the run is in sight. */
  ghost predicate StaysInSight(env: Environment, w: World, t: Sight, steps: seq<Step>, last: World)
    requires Runs(env, w, steps, last)
    decreases |steps|
  {
    && InSight(w, t)
    && (steps != [] ==> StaysInSight(env, Do(env, w, steps[0]), Saw(env, w, t, steps[0]), steps[1..], last))
  }

  ghost predicate NeverAdoptsUnseen(env: Environment, w: World, t: Sight, steps: seq<Step>, last: World)
    requires Runs(env, w, steps, last)
    decreases |steps|
  {
    steps != [] ==>
      && !AdoptsUnseen(w, t, steps[0])
      && NeverAdoptsUnseen(env, Do(env, w, steps[0]), Saw(env, w, t, steps[0]), steps[1..], last)
  }

  lemma {:induction false} SightIff(env: Environment, w: World, t: Sight, steps: seq<Step>, last: World)
    requires Inv(env, w) && InSight(w, t) && Runs(env, w, steps, last)
    ensures StaysInSight(env, w, t, steps, last) <==> NeverAdoptsUnseen(env, w, t, steps, last)
    decreases |steps|
  {
    if steps != [] {
      var next, u := Do(env, w, steps[0]), Saw(env, w, t, steps[0]);
      StepInSightIff(env, w, t, steps[0]);
      InvStep(env, w, steps[0]);
      if InSight(next, u) {
        SightIff(env, next, u, steps[1..], last);
      } else {
        OutOfSight(env, next, u, steps[1..], last);
      }
    }
  }

  lemma OutOfSight(env: Environment, w: World, t: Sight, steps: seq<Step>, last: World)
    requires Runs(env, w, steps, last) && !InSight(w, t)
    ensures !StaysInSight(env, w, t, steps, last)
  {
  }

  lemma {:induction false} InSightAtTheEnd(env: Environment, w: World, t: Sight, steps: seq<Step>, last: World)
    requires Runs(env, w, steps, last) && StaysInSight(env, w, t, steps, last)
    ensures InSight(last, SightAfter(env, w, t, steps, last))
    decreases |steps|
  {
    if steps != [] {
      InSightAtTheEnd(env, Do(env, w, steps[0]), Saw(env, w, t, steps[0]), steps[1..], last);
    }
  }

  /** All that the editors show, capture and save is derived from the content it would
      replace, all through a run, if and only if no editor ever adopts a strategy
      that is not derived from its base. */
  lemma InSightIff(env: Environment, id: RevisionId, content: Strategy, steps: seq<Step>, last: World)
    requires Runs(env, Initial(env, id, content), steps, last)
    ensures StaysInSight(env, Initial(env, id, content), NothingSeen(), steps, last)
        <==> NeverAdoptsUnseen(env, Initial(env, id, content), NothingSeen(), steps, last)
  {
    InvInitial(env, id, content);
    SightIff(env, Initial(env, id, content), NothingSeen(), steps, last);
  }

  /** In such a run every accepted save is derived from the content that it replaced. */
  lemma SavesSawWhatTheyReplaced(env: Environment, id: RevisionId, content: Strategy, steps: seq<Step>, last: World,
                                 i: nat)
    requires Runs(env, Initial(env, id, content), steps, last) && i + 1 < |last.history|
    requires NeverAdoptsUnseen(env, Initial(env, id, content), NothingSeen(), steps, last)
    ensures last.history[i] in last.revisions
    ensures
      var seen := SightAfter(env, Initial(env, id, content), NothingSeen(), steps, last).saves;
      i < |seen| && last.revisions[last.history[i]].content in seen[i]
  {
    InSightIff(env, id, content, steps, last);
    InSightAtTheEnd(env, Initial(env, id, content), NothingSeen(), steps, last);
    InvInitial(env, id, content);
    InvRuns(env, Initial(env, id, content), steps, last);
    assert SaveOk(last.revisions, last.history[i], last.history[i + 1], last.saves[i]);
  }
}
