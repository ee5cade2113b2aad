/** Any number of V2 editors working on one strategy through overlapping,
    reordered and lost requests against the compare-and-swap revision store. */
module EditorProtocol {
  import opened Options
  import opened Editor

  type ClientId = nat
  type RequestId = nat

  /** The code outside the protocol: the semantic hash and the three-way merge. */
  datatype Environment = Environment(hash: Strategy -> Hash, merge: Merge)

  /** What a handler's closure captured when it was invoked. */
  datatype Captured = Captured(client: ClientId, state: State)

  datatype SaveReply = Accepted(revision: Revision) | Stale | Refused

  datatype Stage = Sent | Answered(reply: SaveReply) | LoadingHead | HeadLoaded(head: Revision)

  /** A handler suspended at an await. */
  datatype Pending =
    | Authoring(at: Captured, number: nat, direction: Direction)
    | Saving(at: Captured, stage: Stage, forRun: bool)
    | Refreshing(at: Captured, conflict: Conflict, stage: Stage)
    | PrepareAuthoring(at: Captured, number: nat)
    | PrepareSaving(at: Captured, number: nat, authored: Strategy, stage: Stage)
    | Preflight(at: Captured)
    | Orphaned(at: Captured, content: Strategy)
    | Executing(at: Captured)

  /** An accepted save, with the base its sender had edited from. */
  datatype AcceptedSave = AcceptedSave(parent: RevisionId, revision: RevisionId, senderBase: Strategy,
                                       content: Strategy)

  /** A quick test that was executed, with what the editor showed at Run. */
  datatype Execution = Execution(revisionId: RevisionId, shown: Strategy)

  datatype World = World(
    revisions: map<RevisionId, Revision>,
    history: seq<RevisionId>,
    clients: map<ClientId, State>,
    pending: map<RequestId, Pending>,
    issued: RequestId,
    reapplied: set<ClientId>,
    saves: seq<AcceptedSave>,
    executions: map<RequestId, Execution>,
    failedRuns: set<RequestId>)

  datatype Step =
    | Open(client: ClientId, revision: RevisionId)
    | PressAuthoring(client: ClientId, direction: Direction)
    | AuthoringReply(request: RequestId, strategy: Option<Strategy>)
    | PressSave(client: ClientId)
    | ServerSave(request: RequestId, newId: RevisionId)
    | ServerRefuse(request: RequestId)
    | LoseConnection(request: RequestId)
    | Deliver(request: RequestId)
    | ReadHead(request: RequestId)
    | HeadUnavailable(request: RequestId)
    | PressRefresh(client: ClientId)
    | PressReapply(client: ClientId)
    | PressDiscard(client: ClientId)
    | ReportWorking(client: ClientId, unfinished: bool)
    | PressPrepare(client: ClientId, hasOperation: bool)
    | PressRun(client: ClientId)
    | PreflightReply(request: RequestId, executable: bool)
    | ExecutionDone(request: RequestId, succeeded: bool)

  // ----- helpers -----

  function Head(w: World): RevisionId
    requires w.history != []
  {
    w.history[|w.history| - 1]
  }

  function Put(w: World, c: ClientId, s: State): World {
    w.(clients := w.clients[c := s])
  }

  function Suspend(w: World, p: Pending): World {
    w.(pending := w.pending[w.issued := p], issued := w.issued + 1)
  }

  function Await(w: World, id: RequestId, p: Pending): World {
    w.(pending := w.pending[id := p])
  }

  function Finish(w: World, id: RequestId): World {
    w.(pending := w.pending - {id})
  }

  /** What a save request asks the store to append, if p is one. */
  function SaveBody(p: Pending): Option<Strategy> {
    match p
    case Saving(at, Sent, _) => Some(at.state.canonical)
    case PrepareSaving(_, _, authored, Sent) => Some(authored)
    case Orphaned(_, content) => Some(content)
    case _ => None
  }

  function WithStage(p: Pending, stage: Stage): Pending {
    match p
    case Saving(at, _, forRun) => Saving(at, stage, forRun)
    case PrepareSaving(at, number, authored, _) => PrepareSaving(at, number, authored, stage)
    case Refreshing(at, conflict, _) => Refreshing(at, conflict, stage)
    case _ => p
  }

  /** The conflict that a loaded head makes with what the handler captured. */
  function ConflictWith(env: Environment, at: Captured, head: Revision): Conflict {
    Conflict(at.state.revisionId, head.id, head, env.merge(at.state.base, at.state.canonical, head.content))
  }

  // ----- when a step can happen -----

  predicate Enabled(env: Environment, w: World, step: Step) {
    match step
    case Open(c, r) => c !in w.clients && r in w.revisions
    case PressAuthoring(c, d) =>
      c in w.clients && (d == Undo ==> w.clients[c].undo != []) && (d == Redo ==> w.clients[c].redo != [])
    case AuthoringReply(id, strategy) =>
      && id in w.pending
      && (w.pending[id].Authoring? || w.pending[id].PrepareAuthoring?)
      && w.pending[id].at.client in w.clients
      && var sent := w.pending[id].at.state;
      (strategy.Some? ==> sent.sourceHash == env.hash(sent.canonical))
    case PressSave(c) => c in w.clients
    case ServerSave(id, newId) =>
      id in w.pending && SaveBody(w.pending[id]).Some? && newId !in w.revisions && w.history != []
          && Head(w) in w.revisions
    case ServerRefuse(id) => id in w.pending && SaveBody(w.pending[id]).Some?
    case LoseConnection(id) =>
      && id in w.pending
      && (w.pending[id].Saving? || w.pending[id].PrepareSaving?)
      && (w.pending[id].stage.Sent? || w.pending[id].stage.Answered?)
      && w.pending[id].at.client in w.clients
    case Deliver(id) =>
      && id in w.pending
      && (w.pending[id].Saving? || w.pending[id].PrepareSaving? || w.pending[id].Refreshing?)
      && (w.pending[id].stage.Answered? || w.pending[id].stage.HeadLoaded?)
      && w.pending[id].at.client in w.clients
    case ReadHead(id) =>
      && id in w.pending
      && (w.pending[id].Saving? || w.pending[id].PrepareSaving? || w.pending[id].Refreshing?)
      && w.pending[id].stage.LoadingHead?
      && w.history != [] && Head(w) in w.revisions
    case HeadUnavailable(id) =>
      && id in w.pending
      && (w.pending[id].Saving? || w.pending[id].PrepareSaving? || w.pending[id].Refreshing?)
      && w.pending[id].stage.LoadingHead?
      && w.pending[id].at.client in w.clients
    case PressRefresh(c) => c in w.clients
    case PressReapply(c) => c in w.clients
    case PressDiscard(c) => c in w.clients
    case ReportWorking(c, _) => c in w.clients
    case PressPrepare(c, _) => c in w.clients
    case PressRun(c) => c in w.clients
    case PreflightReply(id, _) =>
      id in w.pending && w.pending[id].Preflight? && w.pending[id].at.client in w.clients
    case ExecutionDone(id, _) =>
      id in w.pending && w.pending[id].Executing? && w.pending[id].at.client in w.clients
  }

  // ----- what each step does -----

  function DoPressAuthoring(w: World, c: ClientId, d: Direction): World
    requires c in w.clients
  {
    var s := w.clients[c];
    Suspend(Put(w, c, Issued(s)), Authoring(Captured(c, s), s.sequence + 1, d))
  }

  function DoAuthoringReply(env: Environment, w: World, id: RequestId, strategy: Option<Strategy>): World
    requires Enabled(env, w, AuthoringReply(id, strategy))
  {
    var p := w.pending[id];
    var c := p.at.client;
    var s := w.clients[c];
    if p.Authoring? then
      var answer := if strategy.None? then Rejected else Authored(strategy.value, env.hash(strategy.value));
      var changed := p.number == s.sequence && strategy.Some?;
      Finish(Put(w, c, AuthoringAnswered(s, p.number, p.direction, p.at.state.canonical, answer)), id)
        .(reapplied := if changed then w.reapplied - {c} else w.reapplied)
    else if strategy.None? then Finish(Put(w, c, PrepareFailed(s, p.number)), id)
    else if p.number != s.sequence then Finish(w, id)
    else Await(w, id, PrepareSaving(p.at, p.number, strategy.value, Sent))
  }

  /** `persistCommittedRevision` for a user's Save. */
  function DoPressSave(w: World, c: ClientId): World
    requires c in w.clients
  {
    var s := w.clients[c];
    if PersistDecision(s) != SendSave then w
    else Suspend(Put(w, c, s.(status := Updating)), Saving(Captured(c, s), Sent, false))
  }

  /** The store's compare-and-swap: stale unless the parent is the head; saving
      the head's own content again changes nothing. */
  function DoServerSave(env: Environment, w: World, id: RequestId, newId: RevisionId): World
    requires Enabled(env, w, ServerSave(id, newId))
  {
    var p := w.pending[id];
    var content := SaveBody(p).value;
    var parent := p.at.state.revisionId;
    var head := w.revisions[Head(w)];
    if parent != Head(w) then Await(w, id, WithStage(p, Answered(Stale)))
    else if head.content == content then Await(w, id, WithStage(p, Answered(Accepted(head))))
    else
      var r := Revision(newId, Some(parent), content, env.hash(content));
      Await(w, id, WithStage(p, Answered(Accepted(r))))
        .(revisions := w.revisions[newId := r],
          history := w.history + [newId],
          saves := w.saves + [AcceptedSave(parent, newId, p.at.state.base, content)])
  }

  /** The request fails at the client, while the store may still receive it. */
  function DoLoseConnection(w: World, id: RequestId): World
    requires id in w.pending && (w.pending[id].Saving? || w.pending[id].PrepareSaving?)
    requires w.pending[id].at.client in w.clients
  {
    var p := w.pending[id];
    var failed := SaveFailedAt(w, id, p);
    if p.stage.Sent? then Suspend(failed, Orphaned(p.at, SaveBody(p).value)) else failed
  }

  /** The catch branch of a save that cannot resolve a conflict. */
  function SaveFailedAt(w: World, id: RequestId, p: Pending): World
    requires p.Saving? || p.PrepareSaving?
    requires p.at.client in w.clients
  {
    var c := p.at.client;
    var s := w.clients[c];
    match p
    case Saving(_, _, forRun) =>
      var next := Put(w, c, s.(status := Invalid, panel := if forRun then Closed else s.panel));
      Finish(if forRun then next.(failedRuns := w.failedRuns + {id}) else next, id)
    case PrepareSaving(_, number, _, stage) =>
      Finish(Put(w, c, if stage.LoadingHead? then s.(status := Invalid) else PrepareFailed(s, number)), id)
  }

  /** The rest of `persistCommittedRevision`, and of `run` when it saved for one. */
  function DeliverSaving(env: Environment, w: World, id: RequestId, p: Pending): World
    requires p.Saving? && p.at.client in w.clients
  {
    var c := p.at.client;
    var s := w.clients[c];
    match p.stage
    case Answered(Accepted(r)) =>
      var next := Put(w, c, WithRevision(s, r)).(reapplied := w.reapplied - {c});
      if p.forRun then
        Await(next, id, Executing(p.at)).(executions := w.executions[id := Execution(r.id, p.at.state.canonical)])
      else Finish(next, id)
    case Answered(Stale) => Await(w, id, WithStage(p, LoadingHead))
    case HeadLoaded(head) =>
      var conflicted := WithConflict(s, ConflictWith(env, p.at, head));
      var next := Put(w, c, if p.forRun then conflicted.(panel := Closed) else conflicted);
      Finish(if p.forRun then next.(failedRuns := w.failedRuns + {id}) else next, id)
    case _ => SaveFailedAt(w, id, p)
  }

  /** The rest of `prepareBlockyTest` after its save. */
  function DeliverPrepared(env: Environment, w: World, id: RequestId, p: Pending): World
    requires p.PrepareSaving? && p.at.client in w.clients
  {
    var c := p.at.client;
    var s := w.clients[c];
    match p.stage
    case Answered(Accepted(r)) =>
      Finish(Put(w, c, PrepareSaved(s, p.number, p.at.state.canonical, r)), id)
        .(reapplied := if p.number == s.sequence then w.reapplied - {c} else w.reapplied)
    case Answered(Stale) =>
      if p.number != s.sequence then Finish(w, id) else Await(w, id, WithStage(p, LoadingHead))
    case HeadLoaded(head) => Finish(Put(w, c, WithConflict(s, ConflictWith(env, p.at, head))), id)
    case _ => SaveFailedAt(w, id, p)
  }

  /** The rest of `refreshConflict`. */
  function DeliverRefreshed(env: Environment, w: World, id: RequestId, p: Pending): World
    requires p.Refreshing? && p.at.client in w.clients
  {
    var c := p.at.client;
    if p.stage.HeadLoaded? then
      var loaded := ConflictWith(env, p.at, p.stage.head).(baseRevisionId := p.conflict.baseRevisionId);
      Finish(Put(w, c, w.clients[c].(conflict := Some(loaded))), id)
    else Finish(w, id)
  }

  function DoDeliver(env: Environment, w: World, id: RequestId): World
    requires Enabled(env, w, Deliver(id))
  {
    var p := w.pending[id];
    if p.Saving? then DeliverSaving(env, w, id, p)
    else if p.PrepareSaving? then DeliverPrepared(env, w, id, p)
    else DeliverRefreshed(env, w, id, p)
  }

  function DoReadHead(env: Environment, w: World, id: RequestId): World
    requires Enabled(env, w, ReadHead(id))
  {
    Await(w, id, WithStage(w.pending[id], HeadLoaded(w.revisions[Head(w)])))
  }

  function DoHeadUnavailable(env: Environment, w: World, id: RequestId): World
    requires Enabled(env, w, HeadUnavailable(id))
  {
    var p := w.pending[id];
    if p.Refreshing? then Finish(w, id) else SaveFailedAt(w, id, p)
  }

  function DoPressRefresh(w: World, c: ClientId): World
    requires c in w.clients
  {
    var s := w.clients[c];
    if s.conflict.None? then w
    else Suspend(w, Refreshing(Captured(c, s), s.conflict.value, LoadingHead))
  }

  function DoPressReapply(w: World, c: ClientId): World
    requires c in w.clients
  {
    var s := w.clients[c];
    var effective := s.conflict.Some? && s.conflict.value.merged.Some?;
    Put(w, c, Reapplied(s)).(reapplied := if effective then w.reapplied + {c} else w.reapplied)
  }

  function DoPressDiscard(w: World, c: ClientId): World
    requires c in w.clients
  {
    var s := w.clients[c];
    Put(w, c, Discarded(s)).(reapplied := if s.conflict.Some? then w.reapplied - {c} else w.reapplied)
  }

  function DoPressPrepare(w: World, c: ClientId, hasOperation: bool): World
    requires c in w.clients
  {
    var s := w.clients[c];
    if !hasOperation then Put(w, c, s.(panel := Setup))
    else if s.status != Saved then w
    else Suspend(Put(w, c, Issued(s)), PrepareAuthoring(Captured(c, s), s.sequence + 1))
  }

  /** `run` up to its preflight; it does nothing while the editor is unavailable. */
  function DoPressRun(w: World, c: ClientId): World
    requires c in w.clients
  {
    var s := w.clients[c];
    if s.status != Saved then w else Suspend(w, Preflight(Captured(c, s)))
  }

  /** The rest of `run`: persist what was captured at Run, then execute it. */
  function DoPreflightReply(w: World, id: RequestId, executable: bool): World
    requires id in w.pending && w.pending[id].Preflight? && w.pending[id].at.client in w.clients
  {
    var at := w.pending[id].at;
    var c := at.client;
    var s := w.clients[c];
    if !executable then
      Finish(Put(w, c, s.(panel := Failure, status := Saved)), id).(failedRuns := w.failedRuns + {id})
    else
      var next := Put(w, c, s.(panel := Running, status := Updating));
      match PersistDecision(at.state)
      case AlreadySaved =>
        Await(next, id, Executing(at))
          .(executions := w.executions[id := Execution(at.state.revisionId, at.state.canonical)])
      case SendSave => Await(next, id, Saving(at, Sent, true))
      case NotReady =>
        Finish(Put(w, c, s.(panel := Closed, status := Updating)), id).(failedRuns := w.failedRuns + {id})
  }

  function DoExecutionDone(w: World, id: RequestId, succeeded: bool): World
    requires id in w.pending && w.pending[id].at.client in w.clients
  {
    var c := w.pending[id].at.client;
    Finish(Put(w, c, w.clients[c].(panel := if succeeded then Success else Failure, status := Saved)), id)
  }

  /** Steps in which a user acts on an editor. */
  predicate IsPress(step: Step) {
    step.Open? || step.PressAuthoring? || step.PressSave? || step.PressRefresh? || step.PressReapply?
    || step.PressDiscard? || step.ReportWorking? || step.PressPrepare? || step.PressRun?
  }

  function DoPress(env: Environment, w: World, step: Step): World
    requires IsPress(step) && Enabled(env, w, step)
  {
    match step
    case Open(c, r) => Put(w, c, Opened(w.revisions[r]))
    case PressAuthoring(c, d) => DoPressAuthoring(w, c, d)
    case PressSave(c) => DoPressSave(w, c)
    case PressRefresh(c) => DoPressRefresh(w, c)
    case PressReapply(c) => DoPressReapply(w, c)
    case PressDiscard(c) => DoPressDiscard(w, c)
    case ReportWorking(c, unfinished) => Put(w, c, w.clients[c].(status := if unfinished then Unfinished else Saved))
    case PressPrepare(c, hasOperation) => DoPressPrepare(w, c, hasOperation)
    case PressRun(c) => DoPressRun(w, c)
  }

  /** Steps of the network and of the services behind it. */
  function DoNetwork(env: Environment, w: World, step: Step): World
    requires !IsPress(step) && Enabled(env, w, step)
  {
    match step
    case AuthoringReply(id, strategy) => DoAuthoringReply(env, w, id, strategy)
    case ServerSave(id, newId) => DoServerSave(env, w, id, newId)
    case ServerRefuse(id) => Await(w, id, WithStage(w.pending[id], Answered(Refused)))
    case LoseConnection(id) => DoLoseConnection(w, id)
    case Deliver(id) => DoDeliver(env, w, id)
    case ReadHead(id) => DoReadHead(env, w, id)
    case HeadUnavailable(id) => DoHeadUnavailable(env, w, id)
    case PreflightReply(id, executable) => DoPreflightReply(w, id, executable)
    case ExecutionDone(id, succeeded) => DoExecutionDone(w, id, succeeded)
  }

  function Do(env: Environment, w: World, step: Step): World
    requires Enabled(env, w, step)
  {
    if IsPress(step) then DoPress(env, w, step) else DoNetwork(env, w, step)
  }

  /** A store with one revision and no editor open. */
  function Initial(env: Environment, id: RevisionId, content: Strategy): World {
    World(map[id := Revision(id, None, content, env.hash(content))], [id], map[], map[], 0, {}, [], map[], {})
  }

  ghost predicate Runs(env: Environment, w: World, steps: seq<Step>, last: World)
    decreases |steps|
  {
    if steps == [] then last == w
    else Enabled(env, w, steps[0]) && Runs(env, Do(env, w, steps[0]), steps[1..], last)
  }

  /** last is reached from a fresh store by some run. */
  ghost predicate Reachable(env: Environment, last: World) {
    exists id, content, steps :: Runs(env, Initial(env, id, content), steps, last)
  }
}
