/** The V2 strategy editor: the state its handlers share, and what each handler
    does to it between two awaits. */
module Editor {
  import opened Options
  import opened JsonText

  type Strategy = Json
  type RevisionId = string
  type Hash = string

  /** A stored, immutable revision. */
  datatype Revision = Revision(id: RevisionId, parent: Option<RevisionId>, content: Strategy, hash: Hash)

  datatype Status = Saved | Updating | Invalid | Unfinished

  datatype Panel = Closed | Setup | Running | Success | Failure

  /** A detected conflict: the head that was loaded, and the merge of the local
      edits onto it when they do not clash. */
  datatype Conflict = Conflict(
    baseRevisionId: RevisionId,
    currentRevisionId: RevisionId,
    current: Revision,
    merged: Option<Strategy>)

  datatype State = State(
    canonical: Strategy,
    base: Strategy,
    revisionId: RevisionId,
    sourceHash: Hash,
    dirty: bool,
    status: Status,
    undo: seq<Strategy>,
    redo: seq<Strategy>,
    conflict: Option<Conflict>,
    sequence: nat,
    panel: Panel)

  datatype Direction = Apply | Undo | Redo

  /** What the authoring service answers: a strategy and its hash, or an error. */
  datatype Authored = Authored(strategy: Strategy, hash: Hash) | Rejected

  /** Three-way merge of local edits onto a newer revision; None on a direct conflict. */
  type Merge = (Strategy, Strategy, Strategy) -> Option<Strategy>

  // ----- the handlers as functions of the state -----

  function Opened(r: Revision): State {
    State(r.content, r.content, r.id, r.hash, false, Saved, [], [], None, 0, Closed)
  }

  /** `apply`, `restore` and `prepareBlockyTest` up to their first await. */
  function Issued(s: State): State {
    s.(sequence := s.sequence + 1, status := Updating)
  }

  function ButLast<T>(xs: seq<T>): seq<T> {
    if xs == [] then [] else xs[..|xs| - 1]
  }

  /** The rest of `apply` or `restore`, for the request that carried `sent`. */
  function AuthoringAnswered(s: State, number: nat, direction: Direction, sent: Strategy, answer: Authored): State {
    if number != s.sequence then s
    else match answer
      case Rejected => s.(status := Invalid)
      case Authored(strategy, hash) =>
        var next := s.(canonical := strategy, sourceHash := hash, dirty := true, status := Saved);
        match direction
        case Apply => next.(undo := s.undo + [sent], redo := [])
        case Undo => next.(undo := ButLast(s.undo), redo := s.redo + [sent])
        case Redo => next.(redo := ButLast(s.redo), undo := s.undo + [sent])
  }

  function WithRevision(s: State, r: Revision): State {
    s.(canonical := r.content, base := r.content, revisionId := r.id, sourceHash := r.hash, dirty := false,
       status := Saved)
  }

  function WithConflict(s: State, conflict: Conflict): State {
    s.(conflict := Some(conflict), status := Invalid)
  }

  function Reapplied(s: State): State {
    if s.conflict.None? || s.conflict.value.merged.None? then s
    else
      var c := s.conflict.value;
      s.(canonical := c.merged.value, base := c.current.content, revisionId := c.currentRevisionId,
         sourceHash := c.current.hash, dirty := true, status := Saved, conflict := None)
  }

  function Discarded(s: State): State {
    if s.conflict.None? then s
    else WithRevision(s, s.conflict.value.current).(undo := [], redo := [], conflict := None)
  }

  datatype Persist = AlreadySaved | NotReady | SendSave

  /** How `persistCommittedRevision` starts, from the state it captured. */
  function PersistDecision(captured: State): Persist {
    if !captured.dirty then AlreadySaved
    else if captured.status != Saved then NotReady
    else SendSave
  }

  /** The save of a prepared Blocky test came back, for the request that carried `sent`. */
  function PrepareSaved(s: State, number: nat, sent: Strategy, r: Revision): State {
    if number != s.sequence then s
    else WithRevision(s, r).(undo := s.undo + [sent], redo := [], panel := Setup)
  }

  function PrepareFailed(s: State, number: nat): State {
    if number != s.sequence then s else s.(status := Invalid)
  }

  // ----- the component -----

  /** The mounted component. Its fields are the React state and refs; a method is
      the part of a handler that runs without an await. */
  class V2StrategyEditor {
    var canonical: Strategy
    var baseCanonical: Strategy
    var revisionId: RevisionId
    var sourceHash: Hash
    var dirty: bool
    var status: Status
    var undoStack: seq<Strategy>
    var redoStack: seq<Strategy>
    var conflict: Option<Conflict>
    var sequence: nat
    var testPanel: Panel

    function View(): State
      reads this
    {
      State(canonical, baseCanonical, revisionId, sourceHash, dirty, status,
            undoStack, redoStack, conflict, sequence, testPanel)
    }

    constructor (persisted: Revision)
      ensures View() == Opened(persisted)
    {
      canonical, baseCanonical := persisted.content, persisted.content;
      revisionId, sourceHash := persisted.id, persisted.hash;
      dirty, status := false, Saved;
      undoStack, redoStack := [], [];
      conflict := None;
      sequence := 0;
      testPanel := Closed;
    }

    /** Starts a numbered request; answers its number. */
    method Issue() returns (request: nat)
      modifies this
      ensures View() == Issued(old(View())) && request == View().sequence
    {
      sequence := sequence + 1;
      request := sequence;
      status := Updating;
    }

    method ReceiveAuthored(request: nat, direction: Direction, sent: Strategy, answer: Authored)
      modifies this
      ensures View() == AuthoringAnswered(old(View()), request, direction, sent, answer)
    {
      if request != sequence {
        return;
      }
      match answer
      case Rejected =>
        status := Invalid;
      case Authored(strategy, hash) =>
        match direction {
          case Apply =>
            undoStack := undoStack + [sent];
            redoStack := [];
          case Undo =>
            undoStack := ButLast(undoStack);
            redoStack := redoStack + [sent];
          case Redo =>
            redoStack := ButLast(redoStack);
            undoStack := undoStack + [sent];
        }
        canonical, sourceHash := strategy, hash;
        dirty, status := true, Saved;
    }

    /** The user's Save up to its first await. */
    method BeginSave() returns (send: bool)
      modifies this
      ensures send <==> PersistDecision(old(View())) == SendSave
      ensures View() == if send then old(View()).(status := Updating) else old(View())
    {
      if !dirty {
        return false;
      }
      if status != Saved {
        return false;
      }
      status := Updating;
      return true;
    }

    method AdoptRevision(r: Revision)
      modifies this
      ensures View() == WithRevision(old(View()), r)
    {
      canonical, baseCanonical := r.content, r.content;
      revisionId, sourceHash := r.id, r.hash;
      dirty, status := false, Saved;
    }

    method ShowConflict(c: Conflict)
      modifies this
      ensures View() == WithConflict(old(View()), c)
    {
      conflict := Some(c);
      status := Invalid;
    }

    method ReapplyConflict()
      modifies this
      ensures View() == Reapplied(old(View()))
    {
      if conflict.None? || conflict.value.merged.None? {
        return;
      }
      canonical := conflict.value.merged.value;
      baseCanonical := conflict.value.current.content;
      revisionId, sourceHash := conflict.value.currentRevisionId, conflict.value.current.hash;
      dirty, status := true, Saved;
      conflict := None;
    }

    method DiscardConflict()
      modifies this
      ensures View() == Discarded(old(View()))
    {
      if conflict.None? {
        return;
      }
      AdoptRevision(conflict.value.current);
      undoStack, redoStack := [], [];
      conflict := None;
    }

    method ReceivePrepared(request: nat, sent: Strategy, r: Revision)
      modifies this
      ensures View() == PrepareSaved(old(View()), request, sent, r)
    {
      if request != sequence {
        return;
      }
      undoStack := undoStack + [sent];
      redoStack := [];
      AdoptRevision(r);
      testPanel := Setup;
    }

    /** `prepareBlockyTest` up to its first await; answers whether it asks for an edit. */
    method BeginPrepare(hasOperation: bool) returns (send: bool)
      modifies this
      ensures send <==> hasOperation && old(View()).status == Saved
      ensures View() ==
              if send then Issued(old(View()))
              else if hasOperation then old(View())
              else old(View()).(panel := Setup)
    {
      if !hasOperation {
        testPanel := Setup;
        return false;
      }
      if status != Saved {
        return false;
      }
      var _ := Issue();
      return true;
    }

    /** The catch branch of `prepareBlockyTest`. */
    method FailPrepare(request: nat)
      modifies this
      ensures View() == PrepareFailed(old(View()), request)
    {
      if request == sequence {
        status := Invalid;
      }
    }

    method ReportWorking(unfinished: bool)
      modifies this
      ensures View() == old(View()).(status := if unfinished then Unfinished else Saved)
    {
      status := if unfinished then Unfinished else Saved;
    }

    /** A refreshed conflict replaces the one that is shown. */
    method ReplaceConflict(c: Conflict)
      modifies this
      ensures View() == old(View()).(conflict := Some(c))
    {
      conflict := Some(c);
    }

    method SetStatus(next: Status)
      modifies this
      ensures View() == old(View()).(status := next)
    {
      status := next;
    }

    method SetPanel(next: Panel)
      modifies this
      ensures View() == old(View()).(panel := next)
    {
      testPanel := next;
    }
  }
}
