/** The component plays its part of the protocol: on every run, its fields are
    the state that the protocol has for its editor. */
module EditorReplay {
  import opened Options
  import opened Editor
  import opened EditorProtocol
  import opened EditorSafety
  import opened EditorOrigins

  /** The editor that a step is about. */
  function Owner(w: World, step: Step): ClientId {
    if IsPress(step) then step.client else OwnerOf(w, step.request)
  }

  // ----- other editors -----

  lemma PressOthers(env: Environment, w: World, step: Step)
    requires Enabled(env, w, step) && IsPress(step)
    ensures
      var clients := DoPress(env, w, step).clients;
      step.client in clients && clients == w.clients[step.client := clients[step.client]]
  {
    if step.client in w.clients {
      assert w.clients == w.clients[step.client := w.clients[step.client]];
    }
  }

  lemma NetworkOthers(env: Environment, w: World, step: Step)
    requires StatesOk(env, w) && Enabled(env, w, step) && !IsPress(step)
    ensures
      var c, clients := OwnerOf(w, step.request), DoNetwork(env, w, step).clients;
      c in w.clients && c in clients && clients == w.clients[c := clients[c]]
  {
    OwnerIsOpen(env, w, step.request);
    if step.AuthoringReply? {
      AuthoringKeepsRevision(env, w, step.request, step.strategy);
    } else if step.Deliver? {
      DeliverMovesTo(env, w, step.request);
    } else {
      NetworkKeepsRevision(env, w, step);
    }
  }

  /** A step leaves every editor but its own as it was. */
  lemma OthersUntouched(env: Environment, w: World, step: Step, c: ClientId)
    requires Inv(env, w) && Enabled(env, w, step) && c in w.clients && c != Owner(w, step)
    ensures c in Do(env, w, step).clients && Do(env, w, step).clients[c] == w.clients[c]
  {
    if IsPress(step) {
      PressOthers(env, w, step);
    } else {
      NetworkOthers(env, w, step);
    }
  }

  // ----- the component's part of a step -----

  method PerformPress(env: Environment, w: World, step: Step, e: V2StrategyEditor)
    requires Enabled(env, w, step) && IsPress(step) && !step.Open? && e.View() == w.clients[step.client]
    modifies e
    ensures step.client in DoPress(env, w, step).clients
    ensures e.View() == DoPress(env, w, step).clients[step.client]
  {
    match step
    case PressAuthoring(_, _) => var _ := e.Issue();
    case PressSave(_) => var _ := e.BeginSave();
    case PressReapply(_) => e.ReapplyConflict();
    case PressDiscard(_) => e.DiscardConflict();
    case ReportWorking(_, unfinished) => e.ReportWorking(unfinished);
    case PressPrepare(_, hasOperation) => var _ := e.BeginPrepare(hasOperation);
    case _ =>
  }

  method PerformAuthoring(env: Environment, w: World, id: RequestId, strategy: Option<Strategy>, e: V2StrategyEditor)
    requires Enabled(env, w, AuthoringReply(id, strategy)) && e.View() == w.clients[w.pending[id].at.client]
    modifies e
    ensures w.pending[id].at.client in DoAuthoringReply(env, w, id, strategy).clients
    ensures e.View() == DoAuthoringReply(env, w, id, strategy).clients[w.pending[id].at.client]
  {
    var p := w.pending[id];
    if p.Authoring? {
      var answer := if strategy.None? then Rejected else Authored(strategy.value, env.hash(strategy.value));
      e.ReceiveAuthored(p.number, p.direction, p.at.state.canonical, answer);
    } else if strategy.None? {
      e.FailPrepare(p.number);
    }
  }

  method PerformFailure(w: World, id: RequestId, p: Pending, e: V2StrategyEditor)
    requires (p.Saving? || p.PrepareSaving?) && p.at.client in w.clients && e.View() == w.clients[p.at.client]
    modifies e
    ensures p.at.client in SaveFailedAt(w, id, p).clients
    ensures e.View() == SaveFailedAt(w, id, p).clients[p.at.client]
  {
    match p
    case Saving(_, _, forRun) =>
      e.SetStatus(Invalid);
      if forRun {
        e.SetPanel(Closed);
      }
    case PrepareSaving(_, number, _, stage) =>
      if stage.LoadingHead? {
        e.SetStatus(Invalid);
      } else {
        e.FailPrepare(number);
      }
  }

  method PerformSaving(env: Environment, w: World, id: RequestId, p: Pending, e: V2StrategyEditor)
    requires p.Saving? && p.at.client in w.clients && e.View() == w.clients[p.at.client]
    modifies e
    ensures p.at.client in DeliverSaving(env, w, id, p).clients
    ensures e.View() == DeliverSaving(env, w, id, p).clients[p.at.client]
  {
    match p.stage
    case Answered(Accepted(r)) => e.AdoptRevision(r);
    case Answered(Stale) =>
    case HeadLoaded(head) =>
      e.ShowConflict(ConflictWith(env, p.at, head));
      if p.forRun {
        e.SetPanel(Closed);
      }
    case _ => PerformFailure(w, id, p, e);
  }

  method PerformPrepared(env: Environment, w: World, id: RequestId, p: Pending, e: V2StrategyEditor)
    requires p.PrepareSaving? && p.at.client in w.clients && e.View() == w.clients[p.at.client]
    modifies e
    ensures p.at.client in DeliverPrepared(env, w, id, p).clients
    ensures e.View() == DeliverPrepared(env, w, id, p).clients[p.at.client]
  {
    match p.stage
    case Answered(Accepted(r)) => e.ReceivePrepared(p.number, p.at.state.canonical, r);
    case Answered(Stale) =>
    case HeadLoaded(head) => e.ShowConflict(ConflictWith(env, p.at, head));
    case _ => PerformFailure(w, id, p, e);
  }

  method PerformDeliver(env: Environment, w: World, id: RequestId, e: V2StrategyEditor)
    requires Enabled(env, w, Deliver(id)) && e.View() == w.clients[w.pending[id].at.client]
    modifies e
    ensures w.pending[id].at.client in DoDeliver(env, w, id).clients
    ensures e.View() == DoDeliver(env, w, id).clients[w.pending[id].at.client]
  {
    var p := w.pending[id];
    if p.Saving? {
      PerformSaving(env, w, id, p, e);
    } else if p.PrepareSaving? {
      PerformPrepared(env, w, id, p, e);
    } else if p.stage.HeadLoaded? {
      e.ReplaceConflict(ConflictWith(env, p.at, p.stage.head).(baseRevisionId := p.conflict.baseRevisionId));
    }
  }

  method PerformPreflight(w: World, id: RequestId, executable: bool, e: V2StrategyEditor)
    requires id in w.pending && w.pending[id].Preflight? && w.pending[id].at.client in w.clients
    requires e.View() == w.clients[w.pending[id].at.client]
    modifies e
    ensures w.pending[id].at.client in DoPreflightReply(w, id, executable).clients
    ensures e.View() == DoPreflightReply(w, id, executable).clients[w.pending[id].at.client]
  {
    if !executable {
      e.SetPanel(Failure);
      e.SetStatus(Saved);
    } else {
      e.SetPanel(Running);
      e.SetStatus(Updating);
      if PersistDecision(w.pending[id].at.state) == NotReady {
        e.SetPanel(Closed);
      }
    }
  }

  method PerformNetwork(env: Environment, w: World, step: Step, e: V2StrategyEditor)
    requires StatesOk(env, w) && Enabled(env, w, step) && !IsPress(step)
    requires OwnerOf(w, step.request) in w.clients && e.View() == w.clients[OwnerOf(w, step.request)]
    modifies e
    ensures OwnerOf(w, step.request) in DoNetwork(env, w, step).clients
    ensures e.View() == DoNetwork(env, w, step).clients[OwnerOf(w, step.request)]
  {
    match step
    case AuthoringReply(id, strategy) => PerformAuthoring(env, w, id, strategy, e);
    case LoseConnection(id) => PerformFailure(w, id, w.pending[id], e);
    case Deliver(id) => PerformDeliver(env, w, id, e);
    case HeadUnavailable(id) => if !w.pending[id].Refreshing? { PerformFailure(w, id, w.pending[id], e); }
    case PreflightReply(id, executable) => PerformPreflight(w, id, executable, e);
    case ExecutionDone(_, succeeded) =>
      e.SetPanel(if succeeded then Success else Failure);
      e.SetStatus(Saved);
    case _ => NetworkOthers(env, w, step);
  }

  method Perform(env: Environment, w: World, step: Step, c: ClientId, e: V2StrategyEditor)
    requires Inv(env, w) && Enabled(env, w, step) && c in w.clients && e.View() == w.clients[c]
    modifies e
    ensures c in Do(env, w, step).clients && e.View() == Do(env, w, step).clients[c]
  {
    if c != Owner(w, step) {
      OthersUntouched(env, w, step, c);
    } else if IsPress(step) {
      PerformPress(env, w, step, e);
    } else {
      PerformNetwork(env, w, step, e);
    }
  }

  /** A run of the whole protocol, seen by one mounted component that handles the
      steps about itself: at the end it is in the state that the protocol says. */
  method Replay(env: Environment, w: World, steps: seq<Step>, ghost last: World, c: ClientId, e: V2StrategyEditor)
    requires Inv(env, w) && Runs(env, w, steps, last) && c in w.clients && e.View() == w.clients[c]
    modifies e
    ensures c in last.clients && e.View() == last.clients[c]
  {
    var now := w;
    for i := 0 to |steps|
      invariant Inv(env, now) && Runs(env, now, steps[i..], last)
      invariant c in now.clients && e.View() == now.clients[c]
    {
      assert steps[i..][0] == steps[i] && steps[i..][1..] == steps[i + 1..];
      InvStep(env, now, steps[i]);
      Perform(env, now, steps[i], c, e);
      now := Do(env, now, steps[i]);
    }
  }

  /** A component mounted on a stored revision and run to the end of any run. */
  method MountAndReplay(env: Environment, w: World, revision: RevisionId, c: ClientId, steps: seq<Step>,
                        ghost last: World)
    returns (e: V2StrategyEditor)
    requires Reachable(env, w) && Enabled(env, w, Open(c, revision))
        && Runs(env, Do(env, w, Open(c, revision)), steps, last)
    ensures c in last.clients && e.View() == last.clients[c]
  {
    InvReachable(env, w);
    InvStep(env, w, Open(c, revision));
    e := new V2StrategyEditor(w.revisions[revision]);
    Replay(env, Do(env, w, Open(c, revision)), steps, last, c, e);
  }
}
