/** What each step does to the editor it is about, field by field, and what the
    undo and redo histories hold on every run. */
module EditorHistory {
  import opened Options
  import opened Editor
  import opened EditorProtocol

  // ----- answers to authoring requests -----

  /** Request id asks for an edit in direction d, and no newer number was issued. */
  predicate Current(w: World, id: RequestId, d: Direction) {
    && id in w.pending && w.pending[id].Authoring? && w.pending[id].direction == d
    && w.pending[id].at.client in w.clients
    && w.pending[id].number == w.clients[w.pending[id].at.client].sequence
  }

  /** The editor that request id belongs to. */
  function Editing(w: World, id: RequestId): ClientId
    requires id in w.pending
  {
    w.pending[id].at.client
  }

  /** What that editor showed when it sent the request. */
  function SentBy(w: World, id: RequestId): Strategy
    requires id in w.pending
  {
    w.pending[id].at.state.canonical
  }

  /** Every other editor, the store and what runs decided stay as they are. */
  predicate OnlyEditor(w: World, w': World, c: ClientId) {
    && w'.clients.Keys == w.clients.Keys + {c}
    && (forall other | other in w.clients && other != c :: w'.clients[other] == w.clients[other])
    && w'.revisions == w.revisions && w'.history == w.history && w'.saves == w.saves
  }

  /** Between s and s' at most the listed kinds of fields differ. */
  predicate SameWork(s: State, s': State) {
    s'.canonical == s.canonical && s'.base == s.base && s'.revisionId == s.revisionId
    && s'.sourceHash == s.sourceHash && s'.dirty == s.dirty
  }

  predicate SameStacks(s: State, s': State) {
    s'.undo == s.undo && s'.redo == s.redo
  }

  /** An adopted answer is shown, unsaved, on the revision that was shown before. */
  lemma AnswerAdopted(env: Environment, w: World, id: RequestId, d: Direction, z: Strategy)
    requires Enabled(env, w, AuthoringReply(id, Some(z))) && Current(w, id, d)
    ensures
      var c := Editing(w, id);
      var w' := Do(env, w, AuthoringReply(id, Some(z)));
      var s, s' := w.clients[c], w'.clients[c];
      && OnlyEditor(w, w', c) && id !in w'.pending
      && s'.canonical == z && s'.sourceHash == env.hash(z) && s'.dirty && s'.status == Saved
      && s'.base == s.base && s'.revisionId == s.revisionId
      && s'.conflict == s.conflict && s'.sequence == s.sequence && s'.panel == s.panel
  {
  }

  /** An adopted edit is the only new thing to undo, and leaves nothing to redo. */
  lemma ApplyAdopted(env: Environment, w: World, id: RequestId, z: Strategy)
    requires Enabled(env, w, AuthoringReply(id, Some(z))) && Current(w, id, Apply)
    ensures
      var c := Editing(w, id);
      var w' := Do(env, w, AuthoringReply(id, Some(z)));
      var s, s' := w.clients[c], w'.clients[c];
      && |s'.undo| == |s.undo| + 1 && s.undo <= s'.undo && s'.undo[|s.undo|] == SentBy(w, id) && s'.redo == []
      && Enabled(env, w', PressAuthoring(c, Undo)) && !Enabled(env, w', PressAuthoring(c, Redo))
  {
  }

  /** An adopted undo takes the last entry off the undo history, if there is one, and
      what was shown can be redone. */
  lemma UndoAdopted(env: Environment, w: World, id: RequestId, z: Strategy)
    requires Enabled(env, w, AuthoringReply(id, Some(z))) && Current(w, id, Undo)
    ensures
      var c := Editing(w, id);
      var w' := Do(env, w, AuthoringReply(id, Some(z)));
      var s, s' := w.clients[c], w'.clients[c];
      && s'.undo <= s.undo && |s'.undo| == (if s.undo == [] then 0 else |s.undo| - 1)
      && |s'.redo| == |s.redo| + 1 && s.redo <= s'.redo && s'.redo[|s.redo|] == SentBy(w, id)
      && Enabled(env, w', PressAuthoring(c, Redo))
  {
  }

  /** An adopted redo mirrors that. */
  lemma RedoAdopted(env: Environment, w: World, id: RequestId, z: Strategy)
    requires Enabled(env, w, AuthoringReply(id, Some(z))) && Current(w, id, Redo)
    ensures
      var c := Editing(w, id);
      var w' := Do(env, w, AuthoringReply(id, Some(z)));
      var s, s' := w.clients[c], w'.clients[c];
      && s'.redo <= s.redo && |s'.redo| == (if s.redo == [] then 0 else |s.redo| - 1)
      && |s'.undo| == |s.undo| + 1 && s.undo <= s'.undo && s'.undo[|s.undo|] == SentBy(w, id)
      && Enabled(env, w', PressAuthoring(c, Undo))
  {
  }

  /** Moving through the history keeps its length exactly when there is somewhere to
      move: a discard may have emptied it since the request was sent. */
  lemma HistoryLengthKeptIff(env: Environment, w: World, id: RequestId, d: Direction, z: Strategy)
    requires Enabled(env, w, AuthoringReply(id, Some(z))) && Current(w, id, d) && d != Apply
    ensures
      var c := Editing(w, id);
      var s, s' := w.clients[c], Do(env, w, AuthoringReply(id, Some(z))).clients[c];
      |s'.undo| + |s'.redo| == |s.undo| + |s.redo| <==> (if d == Undo then s.undo else s.redo) != []
  {
    if d == Undo {
      UndoAdopted(env, w, id, z);
    } else {
      RedoAdopted(env, w, id, z);
    }
  }

  /** The press of a button and the answer to it, with nothing in between. */
  function PressAndAnswer(env: Environment, w: World, c: ClientId, d: Direction, z: Strategy): World
    requires Enabled(env, w, PressAuthoring(c, d)) && w.clients[c].sourceHash == env.hash(w.clients[c].canonical)
  {
    Do(env, Do(env, w, PressAuthoring(c, d)), AuthoringReply(w.issued, Some(z)))
  }

  lemma PressedIsCurrent(env: Environment, w: World, c: ClientId, d: Direction)
    requires Enabled(env, w, PressAuthoring(c, d))
    ensures
      var w1 := Do(env, w, PressAuthoring(c, d));
      && Current(w1, w.issued, d) && Editing(w1, w.issued) == c && SentBy(w1, w.issued) == w.clients[c].canonical
      && SameStacks(w.clients[c], w1.clients[c])
  {
  }

  /** Undo and then redo: what could be redone before can be redone again, and the
      undo history differs in its last entry only, which now is what the undo
      brought up. Redo and then undo mirrors that. */
  lemma UndoThenRedo(env: Environment, w: World, c: ClientId, d: Direction, y: Strategy, z: Strategy)
    requires d != Apply && Enabled(env, w, PressAuthoring(c, d))
    requires w.clients[c].sourceHash == env.hash(w.clients[c].canonical)
    ensures
      var back := if d == Undo then Redo else Undo;
      var w1 := PressAndAnswer(env, w, c, d, y);
      && Enabled(env, w1, PressAuthoring(c, back))
      && w1.clients[c].sourceHash == env.hash(w1.clients[c].canonical)
      && var s, s' := w.clients[c], PressAndAnswer(env, w1, c, back, z).clients[c];
      var kept, moved := if d == Undo then s.redo else s.undo, if d == Undo then s.undo else s.redo;
      var kept', moved' := if d == Undo then s'.redo else s'.undo, if d == Undo then s'.undo else s'.redo;
      kept' == kept && |moved'| == |moved| && moved'[..|moved| - 1] == moved[..|moved| - 1]
      && moved'[|moved| - 1] == y
  {
    var back := if d == Undo then Redo else Undo;
    var p := Do(env, w, PressAuthoring(c, d));
    PressedIsCurrent(env, w, c, d);
    MovedBy(env, p, w.issued, d, y);
    var w1 := PressAndAnswer(env, w, c, d, y);
    assert w1.clients[c].canonical == y;
    var p1 := Do(env, w1, PressAuthoring(c, back));
    PressedIsCurrent(env, w1, c, back);
    MovedBy(env, p1, w1.issued, back, z);
  }

  lemma MovedBy(env: Environment, w: World, id: RequestId, d: Direction, z: Strategy)
    requires Enabled(env, w, AuthoringReply(id, Some(z))) && Current(w, id, d) && d != Apply
    ensures
      var c := Editing(w, id);
      var w' := Do(env, w, AuthoringReply(id, Some(z)));
      var s, s' := w.clients[c], w'.clients[c];
      && s'.canonical == z && s'.sourceHash == env.hash(z)
      && (d == Undo ==> Enabled(env, w', PressAuthoring(c, Redo)) && s'.redo == s.redo + [SentBy(w, id)]
                        && (s.undo != [] ==> s'.undo == s.undo[..|s.undo| - 1]))
      && (d == Redo ==> Enabled(env, w', PressAuthoring(c, Undo)) && s'.undo == s.undo + [SentBy(w, id)]
                        && (s.redo != [] ==> s'.redo == s.redo[..|s.redo| - 1]))
  {
    AnswerAdopted(env, w, id, d, z);
  }

  /** A refused edit leaves the work and the histories alone. */
  lemma EditRefused(env: Environment, w: World, id: RequestId, d: Direction)
    requires Enabled(env, w, AuthoringReply(id, None)) && Current(w, id, d)
    ensures
      var c := Editing(w, id);
      var w' := Do(env, w, AuthoringReply(id, None));
      OnlyEditor(w, w', c) && w'.clients[c] == w.clients[c].(status := Invalid) && id !in w'.pending
  {
  }

  // ----- presses -----

  /** A request takes the next number and remembers what was shown; until it is
      answered only the status differs. */
  lemma EditRequested(env: Environment, w: World, c: ClientId, d: Direction)
    requires Enabled(env, w, PressAuthoring(c, d))
    ensures
      var w' := Do(env, w, PressAuthoring(c, d));
      var s := w.clients[c];
      && OnlyEditor(w, w', c) && w'.clients[c] == s.(sequence := s.sequence + 1, status := Updating)
      && w'.pending == w.pending[w.issued := Authoring(Captured(c, s), s.sequence + 1, d)]
  {
  }

  /** Undo and Redo are offered exactly when there is something to move to. */
  lemma OfferedIff(env: Environment, w: World, c: ClientId)
    requires c in w.clients
    ensures Enabled(env, w, PressAuthoring(c, Apply))
    ensures Enabled(env, w, PressAuthoring(c, Undo)) <==> |w.clients[c].undo| > 0
    ensures Enabled(env, w, PressAuthoring(c, Redo)) <==> |w.clients[c].redo| > 0
  {
  }

  /** A save is sent if and only if there is unsaved, settled work; it asks for what
      is shown to be stored after the revision that is shown. */
  lemma SaveRequestedIff(env: Environment, w: World, c: ClientId)
    requires c in w.clients && w.issued !in w.pending
    ensures
      var w' := Do(env, w, PressSave(c));
      var s := w.clients[c];
      && OnlyEditor(w, w', c)
      && (w.issued in w'.pending <==> s.dirty && s.status == Saved)
      && (w.issued in w'.pending ==>
            && SaveBody(w'.pending[w.issued]) == Some(s.canonical)
            && w'.pending[w.issued].at.state.revisionId == s.revisionId
            && w'.clients[c] == s.(status := Updating))
      && (w.issued !in w'.pending ==> w' == w)
  {
    assert w.clients.Keys + {c} == w.clients.Keys;
  }

  /** Opening shows the stored content of the revision, clean and with no history. */
  lemma Opens(env: Environment, w: World, c: ClientId, r: RevisionId)
    requires Enabled(env, w, Open(c, r))
    ensures
      var w' := Do(env, w, Open(c, r));
      && OnlyEditor(w, w', c) && c in w'.clients
      && var s, stored := w'.clients[c], w.revisions[r];
      && s.canonical == stored.content && s.base == stored.content && s.revisionId == stored.id
      && s.sourceHash == stored.hash && !s.dirty && s.status == Saved && s.undo == [] && s.redo == []
      && s.conflict == None && s.sequence == 0 && s.panel == Closed
  {
  }

  /** Reapplying shows the merge on the conflicting revision, with that revision's
      content as base and its hash, and keeps the histories. */
  lemma Reapplies(env: Environment, w: World, c: ClientId)
    requires c in w.clients && w.clients[c].conflict.Some? && w.clients[c].conflict.value.merged.Some?
    ensures
      var w' := Do(env, w, PressReapply(c));
      var s, s', k := w.clients[c], w'.clients[c], w.clients[c].conflict.value;
      && OnlyEditor(w, w', c) && w'.pending == w.pending
      && Some(s'.canonical) == k.merged && s'.base == k.current.content && s'.revisionId == k.currentRevisionId
      && s'.sourceHash == k.current.hash && s'.dirty && s'.status == Saved && s'.conflict == None
      && SameStacks(s, s') && s'.sequence == s.sequence && s'.panel == s.panel
  {
  }

  /** Discarding shows the conflicting revision, clean and with no history. */
  lemma Discards(env: Environment, w: World, c: ClientId)
    requires c in w.clients && w.clients[c].conflict.Some?
    ensures
      var w' := Do(env, w, PressDiscard(c));
      var s, s', r := w.clients[c], w'.clients[c], w.clients[c].conflict.value.current;
      && OnlyEditor(w, w', c) && w'.pending == w.pending
      && s'.canonical == r.content && s'.base == r.content && s'.revisionId == r.id && s'.sourceHash == r.hash
      && !s'.dirty && s'.status == Saved && s'.conflict == None && s'.undo == [] && s'.redo == []
      && s'.sequence == s.sequence && s'.panel == s.panel
  {
  }

  /** Without a conflict, or without a merge, the two buttons do nothing. */
  lemma NothingToResolve(env: Environment, w: World, c: ClientId)
    requires c in w.clients
    ensures w.clients[c].conflict == None ==>
              Do(env, w, PressDiscard(c)) == w && Do(env, w, PressRefresh(c)) == w && Do(env, w, PressReapply(c)) == w
    ensures w.clients[c].conflict.Some? && w.clients[c].conflict.value.merged == None ==>
              Do(env, w, PressReapply(c)) == w
  {
    assert w.clients[c := w.clients[c]] == w.clients;
  }

  /** A visual test asks for its edit if and only if it has one and the editor is
      settled; without one it opens the panel. */
  lemma PrepareRequestedIff(env: Environment, w: World, c: ClientId, hasOperation: bool)
    requires c in w.clients && w.issued !in w.pending
    ensures
      var w' := Do(env, w, PressPrepare(c, hasOperation));
      var s := w.clients[c];
      && OnlyEditor(w, w', c)
      && (w.issued in w'.pending <==> hasOperation && s.status == Saved)
      && (w.issued in w'.pending ==>
            && w'.pending[w.issued] == PrepareAuthoring(Captured(c, s), s.sequence + 1)
            && w'.clients[c] == s.(sequence := s.sequence + 1, status := Updating))
      && (!hasOperation ==> w'.clients[c] == s.(panel := Setup))
      && (hasOperation && s.status != Saved ==> w' == w)
  {
    assert w.clients.Keys + {c} == w.clients.Keys;
  }

  // ----- saves -----

  /** The store appends to its head only: a request made on another revision is
      stale; what the head already holds is accepted as the head; everything else
      becomes one new revision after the head. */
  lemma StoreAnswers(env: Environment, w: World, id: RequestId, newId: RevisionId)
    requires Enabled(env, w, ServerSave(id, newId)) && !w.pending[id].Orphaned?
    ensures
      var w' := Do(env, w, ServerSave(id, newId));
      var p, content, head := w.pending[id], SaveBody(w.pending[id]).value, w.revisions[Head(w)];
      && w'.clients == w.clients && id in w'.pending && !w'.pending[id].Authoring? && !w'.pending[id].PrepareAuthoring?
      && w'.pending[id].at == p.at && !w'.pending[id].Preflight? && !w'.pending[id].Orphaned?
      && !w'.pending[id].Executing?
      && var stage := w'.pending[id].stage;
      && (stage == Answered(Stale) <==> p.at.state.revisionId != Head(w))
      && (stage == Answered(Stale) || head.content == content ==>
            w'.revisions == w.revisions && w'.history == w.history && w'.saves == w.saves)
      && (p.at.state.revisionId == Head(w) && head.content == content ==> stage == Answered(Accepted(head)))
      && (p.at.state.revisionId == Head(w) && head.content != content ==>
            && stage == Answered(Accepted(w'.revisions[newId]))
            && w'.revisions.Keys == w.revisions.Keys + {newId}
            && (forall r | r in w.revisions :: w'.revisions[r] == w.revisions[r])
            && w'.revisions[newId] == Revision(newId, Some(Head(w)), content, env.hash(content))
            && w'.history == w.history + [newId]
            && w'.saves == w.saves + [AcceptedSave(Head(w), newId, p.at.state.base, content)])
  {
  }

  /** What an accepted save leaves an editor with; a visual test also makes what was
      shown undoable and opens its panel. */
  lemma SaveAdopted(env: Environment, w: World, id: RequestId, r: Revision)
    requires Enabled(env, w, Deliver(id)) && !w.pending[id].Refreshing?
    requires w.pending[id].stage == Answered(Accepted(r))
    requires w.pending[id].PrepareSaving? ==> w.pending[id].number == w.clients[Editing(w, id)].sequence
    ensures
      var c := Editing(w, id);
      var w' := Do(env, w, Deliver(id));
      var s, s' := w.clients[c], w'.clients[c];
      && OnlyEditor(w, w', c)
      && s'.canonical == r.content && s'.base == r.content && s'.revisionId == r.id && s'.sourceHash == r.hash
      && !s'.dirty && s'.status == Saved && s'.conflict == s.conflict && s'.sequence == s.sequence
      && (w.pending[id].Saving? ==> SameStacks(s, s') && s'.panel == s.panel)
      && (w.pending[id].PrepareSaving? ==>
            s'.undo == s.undo + [SentBy(w, id)] && s'.redo == [] && s'.panel == Setup)
  {
  }

  /** A save that met another head shows the conflict of what it sent with that head,
      and keeps the work; a quick test is given up. */
  lemma ConflictMet(env: Environment, w: World, id: RequestId, head: Revision)
    requires Enabled(env, w, Deliver(id)) && !w.pending[id].Refreshing?
    requires w.pending[id].stage == HeadLoaded(head)
    ensures
      var c, at := Editing(w, id), w.pending[id].at.state;
      var w' := Do(env, w, Deliver(id));
      var s, s' := w.clients[c], w'.clients[c];
      && OnlyEditor(w, w', c) && SameWork(s, s') && SameStacks(s, s') && s'.sequence == s.sequence
      && s'.status == Invalid && s'.conflict.Some?
      && s'.conflict.value.baseRevisionId == at.revisionId && s'.conflict.value.currentRevisionId == head.id
      && s'.conflict.value.current == head
      && s'.conflict.value.merged == env.merge(at.base, at.canonical, head.content)
      && s'.panel == (if w.pending[id].Saving? && w.pending[id].forRun then Closed else s.panel)
  {
  }

  /** Refreshing replaces the conflict that is shown by one with the head of now. */
  lemma ConflictRefreshed(env: Environment, w: World, id: RequestId, head: Revision)
    requires Enabled(env, w, Deliver(id)) && w.pending[id].Refreshing?
    requires w.pending[id].stage == HeadLoaded(head)
    ensures
      var c, at := Editing(w, id), w.pending[id].at.state;
      var w' := Do(env, w, Deliver(id));
      var s, s' := w.clients[c], w'.clients[c];
      && OnlyEditor(w, w', c) && s' == s.(conflict := s'.conflict) && s'.conflict.Some? && id !in w'.pending
      && s'.conflict.value.baseRevisionId == w.pending[id].conflict.baseRevisionId
      && s'.conflict.value.currentRevisionId == head.id && s'.conflict.value.current == head
      && s'.conflict.value.merged == env.merge(at.base, at.canonical, head.content)
  {
  }

  /** A save that fails leaves the work alone. */
  lemma SaveLost(env: Environment, w: World, id: RequestId)
    requires Enabled(env, w, LoseConnection(id)) && w.issued !in w.pending
    ensures
      var c, p := Editing(w, id), w.pending[id];
      var w' := Do(env, w, LoseConnection(id));
      var s := w.clients[c];
      OnlyEditor(w, w', c)
      && w'.clients[c] == s.(status := if p.Saving? || p.number == s.sequence then Invalid else s.status,
                             panel := if p.Saving? && p.forRun then Closed else s.panel)
  {
    FailedSave(w, id, w.pending[id]);
  }

  lemma FailedSave(w: World, id: RequestId, p: Pending)
    requires (p.Saving? || p.PrepareSaving?) && p.at.client in w.clients && !p.stage.LoadingHead?
    ensures
      var w' := SaveFailedAt(w, id, p);
      var c := p.at.client;
      var s := w.clients[c];
      && OnlyEditor(w, w', c) && w'.pending == w.pending - {id} && w'.issued == w.issued
      && w'.clients[c] == s.(status := if p.Saving? || p.number == s.sequence then Invalid else s.status,
                             panel := if p.Saving? && p.forRun then Closed else s.panel)
  {
  }

  /** One that was lost on its way may still reach the store; an answer that was lost
      on its way back may not. */
  lemma LostSaveMayArrive(env: Environment, w: World, id: RequestId)
    requires Enabled(env, w, LoseConnection(id)) && w.issued !in w.pending
    ensures
      var p, w' := w.pending[id], Do(env, w, LoseConnection(id));
      && id !in w'.pending
      && (w.issued in w'.pending <==> p.stage.Sent?)
      && (p.stage.Sent? ==> SaveBody(w'.pending[w.issued]) == SaveBody(p) && w'.pending[w.issued].at == p.at)
  {
    FailedSave(w, id, w.pending[id]);
  }

  /** A stale answer sends the save on to load the head, and changes no editor. */
  lemma StaleAnswered(env: Environment, w: World, id: RequestId)
    requires Enabled(env, w, Deliver(id)) && !w.pending[id].Refreshing?
    requires w.pending[id].stage == Answered(Stale)
    requires w.pending[id].PrepareSaving? ==> w.pending[id].number == w.clients[Editing(w, id)].sequence
    ensures
      var p, w' := w.pending[id], Do(env, w, Deliver(id));
      && w' == w.(pending := w'.pending) && w'.pending.Keys == w.pending.Keys
      && (p.Saving? ==> w'.pending[id] == Saving(p.at, LoadingHead, p.forRun))
      && (p.PrepareSaving? ==> w'.pending[id] == PrepareSaving(p.at, p.number, p.authored, LoadingHead))
  {
  }

  /** The head that is loaded then is the store's head of that moment; when it cannot
      be loaded, a save fails and a refresh changes nothing. */
  lemma HeadAnswered(env: Environment, w: World, id: RequestId, loads: bool)
    requires Enabled(env, w, if loads then ReadHead(id) else HeadUnavailable(id))
    ensures loads ==>
              var w' := Do(env, w, ReadHead(id));
              w'.clients == w.clients && id in w'.pending
              && w'.pending[id] == w.pending[id].(stage := HeadLoaded(w.revisions[w.history[|w.history| - 1]]))
    ensures !loads ==>
              var c := Editing(w, id);
              var w' := Do(env, w, HeadUnavailable(id));
              id !in w'.pending && OnlyEditor(w, w', c)
              && w'.clients[c] == (
                if w.pending[id].Refreshing? then w.clients[c]
                else w.clients[c].(status := Invalid,
                                   panel := if w.pending[id].Saving? && w.pending[id].forRun then Closed
                                            else w.clients[c].panel))
  {
    if !loads {
      assert w.clients.Keys + {Editing(w, id)} == w.clients.Keys;
    }
  }

  /** A refused save leaves the work alone and says so. */
  lemma SaveRefused(env: Environment, w: World, id: RequestId)
    requires Enabled(env, w, Deliver(id)) && !w.pending[id].Refreshing?
    requires w.pending[id].stage == Answered(Refused)
    ensures
      var c, p := Editing(w, id), w.pending[id];
      var w' := Do(env, w, Deliver(id));
      var s := w.clients[c];
      && OnlyEditor(w, w', c) && id !in w'.pending
      && w'.clients[c]
           == s.(status := if p.Saving? || p.number == s.sequence then Invalid else s.status,
                 panel := if p.Saving? && p.forRun then Closed else s.panel)
  {
  }

  /** A visual test whose edit was answered asks for the edited strategy to be stored
      after the revision that was shown; the edit itself is not shown yet. */
  lemma PreparedEdit(env: Environment, w: World, id: RequestId, z: Strategy)
    requires Enabled(env, w, AuthoringReply(id, Some(z))) && w.pending[id].PrepareAuthoring?
    ensures
      var p, w' := w.pending[id], Do(env, w, AuthoringReply(id, Some(z)));
      && w'.clients == w.clients
      && (id in w'.pending <==> p.number == w.clients[Editing(w, id)].sequence)
      && (id in w'.pending ==> SaveBody(w'.pending[id]) == Some(z) && w'.pending[id].at == p.at)
  {
    assert w.clients == w.clients[Editing(w, id) := w.clients[Editing(w, id)]];
  }

  lemma PreparedEditRefused(env: Environment, w: World, id: RequestId)
    requires Enabled(env, w, AuthoringReply(id, None)) && w.pending[id].PrepareAuthoring?
    ensures
      var c, w' := Editing(w, id), Do(env, w, AuthoringReply(id, None));
      var s := w.clients[c];
      && OnlyEditor(w, w', c) && id !in w'.pending
      && w'.clients[c] == s.(status := if w.pending[id].number == s.sequence then Invalid else s.status)
  {
  }

  /** The working draft of a perspective settles the editor or makes it unfinished. */
  lemma WorkReported(env: Environment, w: World, c: ClientId, unfinished: bool)
    requires c in w.clients
    ensures
      var w' := Do(env, w, ReportWorking(c, unfinished));
      && OnlyEditor(w, w', c) && w'.pending == w.pending
      && w'.clients[c] == w.clients[c].(status := w'.clients[c].status)
      && w'.clients[c].status == (if unfinished then Unfinished else Saved)
  {
  }

  // ----- quick tests -----

  /** A quick test that may run first saves exactly what was shown at Run, if that
      was unsaved, and otherwise executes the revision that was shown. */
  lemma TestStarts(env: Environment, w: World, id: RequestId)
    requires Enabled(env, w, PreflightReply(id, true)) && SentState(w, id).status == Saved
    ensures
      var c, at := Editing(w, id), SentState(w, id);
      var w' := Do(env, w, PreflightReply(id, true));
      && OnlyEditor(w, w', c) && w'.clients[c] == w.clients[c].(panel := Running, status := Updating)
      && (at.dirty ==> SaveBody(w'.pending[id]) == Some(at.canonical) && w'.executions == w.executions)
      && (!at.dirty ==> w'.executions == w.executions[id := Execution(at.revisionId, at.canonical)])
      && w'.failedRuns == w.failedRuns
  {
  }

  function SentState(w: World, id: RequestId): State
    requires id in w.pending
  {
    w.pending[id].at.state
  }

  /** A quick test that may not run says so and is settled. */
  lemma TestRefused(env: Environment, w: World, id: RequestId)
    requires Enabled(env, w, PreflightReply(id, false))
    ensures
      var c := Editing(w, id);
      var w' := Do(env, w, PreflightReply(id, false));
      && OnlyEditor(w, w', c) && w'.clients[c] == w.clients[c].(panel := Failure, status := Saved)
      && w'.executions == w.executions && w'.failedRuns == w.failedRuns + {id} && id !in w'.pending
  {
  }

  lemma TestEnds(env: Environment, w: World, id: RequestId, succeeded: bool)
    requires Enabled(env, w, ExecutionDone(id, succeeded))
    ensures
      var c := Editing(w, id);
      var w' := Do(env, w, ExecutionDone(id, succeeded));
      && OnlyEditor(w, w', c) && id !in w'.pending && SameWork(w.clients[c], w'.clients[c])
      && w'.clients[c].status == Saved && w'.clients[c].panel == (if succeeded then Success else Failure)
      && SameStacks(w.clients[c], w'.clients[c])
  {
  }

  /** Run is taken up if and only if the editor is settled. */
  lemma RunTakenUpIff(env: Environment, w: World, c: ClientId)
    requires c in w.clients && w.issued !in w.pending
    ensures
      var w' := Do(env, w, PressRun(c));
      && w'.clients == w.clients
      && (w.issued in w'.pending <==> w.clients[c].status == Saved)
      && (w.issued in w'.pending ==> w'.pending[w.issued] == Preflight(Captured(c, w.clients[c])))
  {
  }

  // ----- the histories over runs -----

  /** What editor c shows in the worlds of a run, the first and the last included. */
  ghost function Shown(env: Environment, w: World, steps: seq<Step>, c: ClientId): set<Strategy>
    decreases |steps|
  {
    (if c in w.clients then {w.clients[c].canonical} else {})
    + if steps != [] && Enabled(env, w, steps[0]) then Shown(env, Do(env, w, steps[0]), steps[1..], c) else {}
  }

  /** All that the histories of editor c hold, or that one of its requests would add,
      is in `known`. */
  ghost predicate Remembers(w: World, c: ClientId, known: set<Strategy>) {
    && (c in w.clients ==>
          && w.clients[c].canonical in known
          && (forall x | x in w.clients[c].undo :: x in known)
          && (forall x | x in w.clients[c].redo :: x in known))
    && (forall id | id in w.pending && w.pending[id].at.client == c :: w.pending[id].at.state.canonical in known)
  }

  lemma RemembersMore(w: World, c: ClientId, known: set<Strategy>, more: set<Strategy>)
    requires Remembers(w, c, known) && known <= more
    ensures Remembers(w, c, more)
  {
  }

  /** What a step does to editor c, if anything, comes from what is remembered. */
  lemma PutRemembered(w: World, c: ClientId, other: ClientId, s: State, known: set<Strategy>)
    requires Remembers(w, c, known)
    requires other == c ==>
               s.canonical in known && (forall x | x in s.undo :: x in known) && (forall x | x in s.redo :: x in known)
    ensures Remembers(Put(w, other, s), c, known)
  {
  }

  lemma PendingRemembered(w: World, c: ClientId, id: RequestId, p: Pending, known: set<Strategy>)
    requires Remembers(w, c, known) && (p.at.client == c ==> p.at.state.canonical in known)
    ensures Remembers(Await(w, id, p), c, known) && Remembers(Suspend(w, p), c, known)
    ensures Remembers(Finish(w, id), c, known)
  {
  }

  predicate ShowsKnown(w: World, c: ClientId, known: set<Strategy>) {
    c in w.clients ==> w.clients[c].canonical in known
  }

  lemma PressRemembers(env: Environment, w: World, step: Step, c: ClientId, known: set<Strategy>)
    requires Enabled(env, w, step) && IsPress(step) && Remembers(w, c, known)
    requires ShowsKnown(Do(env, w, step), c, known)
    ensures Remembers(Do(env, w, step), c, known)
  {
  }

  lemma SavingRemembers(env: Environment, w: World, id: RequestId, c: ClientId, known: set<Strategy>)
    requires Enabled(env, w, Deliver(id)) && w.pending[id].Saving? && Remembers(w, c, known)
    requires ShowsKnown(DeliverSaving(env, w, id, w.pending[id]), c, known)
    ensures Remembers(DeliverSaving(env, w, id, w.pending[id]), c, known)
  {
  }

  lemma PreparedRemembers(env: Environment, w: World, id: RequestId, c: ClientId, known: set<Strategy>)
    requires Enabled(env, w, Deliver(id)) && w.pending[id].PrepareSaving? && Remembers(w, c, known)
    requires ShowsKnown(DeliverPrepared(env, w, id, w.pending[id]), c, known)
    ensures Remembers(DeliverPrepared(env, w, id, w.pending[id]), c, known)
  {
  }

  lemma AuthoringRemembers(env: Environment, w: World, id: RequestId, strategy: Option<Strategy>, c: ClientId,
                           known: set<Strategy>)
    requires Enabled(env, w, AuthoringReply(id, strategy)) && Remembers(w, c, known)
    requires ShowsKnown(DoAuthoringReply(env, w, id, strategy), c, known)
    ensures Remembers(DoAuthoringReply(env, w, id, strategy), c, known)
  {
  }

  lemma FailureRemembers(w: World, id: RequestId, p: Pending, c: ClientId, known: set<Strategy>)
    requires (p.Saving? || p.PrepareSaving?) && p.at.client in w.clients && Remembers(w, c, known)
    ensures Remembers(SaveFailedAt(w, id, p), c, known)
  {
  }

  lemma StageRemembers(w: World, id: RequestId, stage: Stage, c: ClientId, known: set<Strategy>)
    requires Remembers(w, c, known) && id in w.pending
    ensures Remembers(Await(w, id, WithStage(w.pending[id], stage)), c, known)
  {
  }

  lemma ServerRemembers(env: Environment, w: World, id: RequestId, newId: RevisionId, c: ClientId,
                        known: set<Strategy>)
    requires Enabled(env, w, ServerSave(id, newId)) && Remembers(w, c, known)
    ensures Remembers(DoServerSave(env, w, id, newId), c, known)
  {
  }

  lemma LostRemembers(env: Environment, w: World, id: RequestId, c: ClientId, known: set<Strategy>)
    requires Enabled(env, w, LoseConnection(id)) && Remembers(w, c, known)
    ensures Remembers(DoLoseConnection(w, id), c, known)
  {
    var p := w.pending[id];
    FailureRemembers(w, id, p, c, known);
    if p.stage.Sent? {
      PendingRemembered(SaveFailedAt(w, id, p), c, id, Orphaned(p.at, SaveBody(p).value), known);
    }
  }

  lemma PreflightRemembers(env: Environment, w: World, id: RequestId, executable: bool, c: ClientId,
                           known: set<Strategy>)
    requires Enabled(env, w, PreflightReply(id, executable)) && Remembers(w, c, known)
    ensures Remembers(DoPreflightReply(w, id, executable), c, known)
  {
  }

  lemma NetworkRemembers(env: Environment, w: World, step: Step, c: ClientId, known: set<Strategy>)
    requires Enabled(env, w, step) && !IsPress(step) && Remembers(w, c, known)
    requires ShowsKnown(Do(env, w, step), c, known)
    ensures Remembers(Do(env, w, step), c, known)
  {
    if step.Deliver? {
      if w.pending[step.request].Saving? {
        SavingRemembers(env, w, step.request, c, known);
      } else if w.pending[step.request].PrepareSaving? {
        PreparedRemembers(env, w, step.request, c, known);
      } else {
        RefreshedRemembers(env, w, step.request, c, known);
      }
    } else {
      OthersRemember(env, w, step, c, known);
    }
  }

  lemma RefreshedRemembers(env: Environment, w: World, id: RequestId, c: ClientId, known: set<Strategy>)
    requires Enabled(env, w, Deliver(id)) && w.pending[id].Refreshing? && Remembers(w, c, known)
    ensures Remembers(DeliverRefreshed(env, w, id, w.pending[id]), c, known)
  {
  }

  lemma OthersRemember(env: Environment, w: World, step: Step, c: ClientId, known: set<Strategy>)
    requires Enabled(env, w, step) && !IsPress(step) && !step.Deliver? && Remembers(w, c, known)
    requires ShowsKnown(Do(env, w, step), c, known)
    ensures Remembers(Do(env, w, step), c, known)
  {
    match step
    case AuthoringReply(id, strategy) => AuthoringRemembers(env, w, id, strategy, c, known);
    case ServerSave(id, newId) => ServerRemembers(env, w, id, newId, c, known);
    case ServerRefuse(id) => StageRemembers(w, id, Answered(Refused), c, known);
    case LoseConnection(id) => LostRemembers(env, w, id, c, known);
    case ReadHead(id) => StageRemembers(w, id, HeadLoaded(w.revisions[Head(w)]), c, known);
    case HeadUnavailable(id) =>
      PendingRemembered(w, c, id, w.pending[id], known);
      if !w.pending[id].Refreshing? {
        FailureRemembers(w, id, w.pending[id], c, known);
      }
    case PreflightReply(id, executable) => PreflightRemembers(env, w, id, executable, c, known);
    case ExecutionDone(id, succeeded) => EndRemembers(env, w, id, succeeded, c, known);
    case Deliver(_) =>
  }

  lemma EndRemembers(env: Environment, w: World, id: RequestId, succeeded: bool, c: ClientId, known: set<Strategy>)
    requires Enabled(env, w, ExecutionDone(id, succeeded)) && Remembers(w, c, known)
    ensures Remembers(DoExecutionDone(w, id, succeeded), c, known)
  {
  }

  lemma ShownFirst(env: Environment, w: World, steps: seq<Step>, c: ClientId)
    ensures c in w.clients ==> w.clients[c].canonical in Shown(env, w, steps, c)
  {
  }

  lemma StepRemembers(env: Environment, w: World, step: Step, c: ClientId, known: set<Strategy>)
    requires Enabled(env, w, step) && Remembers(w, c, known)
    requires ShowsKnown(Do(env, w, step), c, known)
    ensures Remembers(Do(env, w, step), c, known)
  {
    if IsPress(step) {
      PressRemembers(env, w, step, c, known);
    } else {
      NetworkRemembers(env, w, step, c, known);
    }
  }

  lemma {:induction false} RunRemembers(env: Environment, w: World, steps: seq<Step>, last: World, c: ClientId,
                                        known: set<Strategy>)
    requires Runs(env, w, steps, last) && Remembers(w, c, known)
    ensures Remembers(last, c, known + Shown(env, w, steps, c))
    decreases |steps|
  {
    var shown := known + Shown(env, w, steps, c);
    RemembersMore(w, c, known, shown);
    if steps != [] {
      var next := Do(env, w, steps[0]);
      ShownFirst(env, next, steps[1..], c);
      StepRemembers(env, w, steps[0], c, shown);
      RunRemembers(env, next, steps[1..], last, c, shown);
      assert shown + Shown(env, next, steps[1..], c) == shown;
    }
  }

  /** On every run of any number of editors, what an editor offers to undo or redo
      was shown by that very editor earlier in the run. */
  lemma HistoryWasShown(env: Environment, id: RevisionId, content: Strategy, steps: seq<Step>, last: World,
                        c: ClientId, x: Strategy)
    requires Runs(env, Initial(env, id, content), steps, last) && c in last.clients
    requires x in last.clients[c].undo || x in last.clients[c].redo
    ensures x in Shown(env, Initial(env, id, content), steps, c)
  {
    RunRemembers(env, Initial(env, id, content), steps, last, c, {});
  }
}
