/** The commit handshake of an asynchronous migration. */
module MigrationHandshake {
  import opened Wrappers

  /** Checkpoints: 0 lock acquired, 1 schema applied, 2 inventory staged, 3 ready to commit. */
  const READY: nat := 3

  datatype Message = Backend | Phase(checkpoint: nat) | CommittedMessage | ErrorMessage

  datatype Reply = Continue | Commit | Abort

  datatype Database = Active | Committed | RolledBack

  datatype Child =
    | Starting
    | Working(next: nat)       // towards its next checkpoint
    | Waiting(checkpoint: nat) // for the parent's reply
    | Committing
    | Announcing               // committed, about to say so
    | Closing                  // said so; disposing its engine
    | Failing                  // about to report an error
    | Exited

  /** Why the parent gave up before a terminal message. */
  datatype StopReason = CancelHonoured | PipeClosed

  datatype Outcome = Success | ChildError

  datatype Result =
    | Returned
    | RaisedChildError
    | RaisedCancelled(reason: StopReason)
    | RaisedPipeClosed
    | RaisedNotStopped(reason: StopReason)
    | RaisedNoOutcome

  datatype Parent =
    | Polling
    | CheckingLiveness          // the poll found nothing
    | Handling(message: Message)
    | Notifying                 // commit sent, callback under way
    | Stopping(reason: StopReason)
    | Cleaning(outcome: Outcome)
    | Done(result: Result)

  /**
   A parent task and the child process that runs the transaction, joined by a two-way
   pipe. The child may be killed, the pipe may break for good and the caller may cancel
   at any point.
   */
  datatype State = State(
    parent: Parent,
    authorized: bool,
    child: Child,
    database: Database,
    toParent: seq<Message>,
    toChild: seq<Reply>,
    lost: bool)

  datatype Step =
    | ChildMoves(ok: bool)   // one step of the child; ok is false when what it tries raises
    | ChildKilled
    | PipeBreaks
    | Poll
    | Liveness
    | Respond                // act on the message in hand, after the phase callback
    | Notified
    | PipeError              // poll or receive raised
    | Cancel                 // the caller's cancellation reaches an await
    | StopEnds(stopped: bool, cancelled: bool)
    | CleanEnds

  function Init(): State {
    State(Polling, false, Starting, Active, [], [], false)
  }

  /** Once the pipe is gone, or the parent has closed its end, nothing sent arrives. */
  predicate Broken(s: State) {
    s.lost || s.parent.Done?
  }

  function Tell(s: State, m: Message): State {
    s.(toParent := s.toParent + [m])
  }

  function Fails(s: State): State {
    s.(child := Failing, database := if s.database.Active? then RolledBack else s.database)
  }

  function Exits(s: State): State {
    s.(child := Exited, database := if s.database.Active? then RolledBack else s.database)
  }

  function AfterChild(s: State, ok: bool): State {
    match s.child
    case Starting => if !ok || Broken(s) then Fails(s) else Tell(s, Backend).(child := Working(0))
    case Working(i) => if !ok || Broken(s) then Fails(s) else Tell(s, Phase(i)).(child := Waiting(i))
    case Waiting(i) =>
      if s.toChild != [] then
        var n := s.(toChild := s.toChild[1..]);
        if i == READY && s.toChild[0].Commit? then n.(child := Committing)
        else if i != READY && s.toChild[0].Continue? then n.(child := Working(i + 1))
        else Exits(n)
      else if Broken(s) then Exits(s) else s
    case Committing => if ok then s.(child := Announcing, database := Committed) else Fails(s)
    case Announcing => if Broken(s) then Fails(s) else Tell(s, CommittedMessage).(child := Closing)
    case Closing => if ok then Exits(s) else Fails(s)
    case Failing => if Broken(s) then Exits(s) else Tell(Exits(s), ErrorMessage)
    case Exited => s
  }

  function AfterRespond(s: State, m: Message): State {
    match m
    case Backend => s.(parent := Polling)
    case Phase(i) =>
      if s.lost || s.child.Exited? then s.(parent := Stopping(PipeClosed))
      else if i == READY then s.(toChild := s.toChild + [Commit], authorized := true, parent := Notifying)
      else s.(toChild := s.toChild + [Continue], parent := Polling)
    case CommittedMessage => s.(parent := Cleaning(Success))
    case ErrorMessage => s.(parent := Cleaning(ChildError))
  }

  /** Begin to stop the child: whatever it said is drained, and an abort is sent if it lives. */
  function BeginStop(s: State, reason: StopReason): State {
    s.(parent := Stopping(reason), toParent := if reason.CancelHonoured? then [] else s.toParent,
       toChild := if s.child.Exited? || s.lost then s.toChild else s.toChild + [Abort])
  }

  /** The awaits at which a cancellation is dealt with by the loop's own handler. */
  predicate Cancellable(p: Parent) {
    p.Polling? || p.Notifying? || (p.Handling? && (p.message.Backend? || p.message.Phase?))
  }

  function AfterStop(s: State, reason: StopReason, stopped: bool, cancelled: bool): State {
    if cancelled then s.(parent := Done(RaisedCancelled(reason)))
    else if !stopped then s.(parent := Done(RaisedNotStopped(reason)))
    else if !s.child.Exited? then s
    else s.(parent := Done(if reason.CancelHonoured? then RaisedCancelled(reason) else RaisedPipeClosed))
  }

  function Next(s: State, step: Step): State {
    match step
    case ChildMoves(ok) => AfterChild(s, ok)
    case ChildKilled => Exits(s)
    case PipeBreaks => s.(lost := true)
    case Poll =>
      if !s.parent.Polling? then s
      else if s.toParent == [] then s.(parent := CheckingLiveness)
      else s.(parent := Handling(s.toParent[0]), toParent := s.toParent[1..])
    case Liveness =>
      if !s.parent.CheckingLiveness? then s
      else s.(parent := if s.child.Exited? then Done(RaisedNoOutcome) else Polling)
    case Respond => if s.parent.Handling? then AfterRespond(s, s.parent.message) else s
    case Notified => if s.parent.Notifying? then s.(parent := Polling) else s
    case PipeError =>
      if s.parent.Polling? && (s.lost || (s.child.Exited? && s.toParent == [])) then BeginStop(s, PipeClosed) else s
    case Cancel =>
      if !Cancellable(s.parent) then s
      else if s.authorized then s.(parent := Polling)
      else BeginStop(s, CancelHonoured)
    case StopEnds(stopped, cancelled) =>
      if s.parent.Stopping? then AfterStop(s, s.parent.reason, stopped, cancelled) else s
    case CleanEnds =>
      if s.parent.Cleaning? && s.child.Exited?
      then s.(parent := Done(if s.parent.outcome.Success? then Returned else RaisedChildError)) else s
  }

  function Run(s: State, steps: seq<Step>): State
    decreases |steps|
  {
    if steps == [] then s else Run(Next(s, steps[0]), steps[1..])
  }

  // ---- What every reachable state keeps ----

  /** The first terminal message still to be read, if any. */
  function FirstTerminal(q: seq<Message>): Option<Outcome> {
    if q == [] then None
    else if q[0].CommittedMessage? then Some(Success)
    else if q[0].ErrorMessage? then Some(ChildError)
    else FirstTerminal(q[1..])
  }

  lemma {:induction false} FirstTerminalAppend(q: seq<Message>, m: Message)
    ensures FirstTerminal(q + [m]) ==
      if FirstTerminal(q).Some? then FirstTerminal(q)
      else if m.CommittedMessage? then Some(Success) else if m.ErrorMessage? then Some(ChildError) else None
  {
    if q != [] {
      FirstTerminalAppend(q[1..], m);
      assert (q + [m])[1..] == q[1..] + [m];
    } else {
      assert [m][1..] == [];
    }
  }

  /** The parent may still read a terminal message. */
  predicate Reading(p: Parent) {
    p.Polling? || p.CheckingLiveness? || p.Handling? || p.Notifying?
  }

  /** What the parent will learn first: the message in hand, then the queue. */
  function Pending(s: State): Option<Outcome> {
    if s.parent.Handling? && s.parent.message.CommittedMessage? then Some(Success)
    else if s.parent.Handling? && s.parent.message.ErrorMessage? then Some(ChildError)
    else FirstTerminal(s.toParent)
  }

  /** Nothing reaches the commit without the parent's word, and a parent that honoured a cancellation never gave it. */
  ghost predicate CommitNeedsAuthority(s: State) {
    && (Commit in s.toChild || s.child.Committing? || s.child.Announcing? || s.child.Closing? || s.database.Committed?
        ==> s.authorized)
    && (Honoured(s.parent) ==> !s.authorized)
  }

  predicate Honoured(p: Parent) {
    || (p.Stopping? && p.reason.CancelHonoured?)
    || (p.Done? && p.result.RaisedCancelled? && p.result.reason.CancelHonoured?)
    || (p.Done? && p.result.RaisedNotStopped? && p.result.reason.CancelHonoured?)
  }

  /** Where the child stands agrees with its transaction. */
  ghost predicate ChildIsTrue(s: State) {
    && (s.child.Starting? || s.child.Working? || s.child.Waiting? || s.child.Committing? ==> s.database.Active?)
    && (s.child.Announcing? || s.child.Closing? ==> s.database.Committed?)
    && (s.child.Failing? || s.child.Exited? ==> !s.database.Active?)
    && (s.child.Waiting? ==> s.child.checkpoint <= READY)
    && (s.child.Working? ==> s.child.next <= READY)
  }

  /** The first terminal message tells the truth, and none is sent before there is an outcome. */
  ghost predicate TerminalIsTrue(s: State) {
    Reading(s.parent) ==>
      && (Pending(s) == Some(Success) ==> s.database.Committed?)
      && (Pending(s) == Some(ChildError) ==> s.database.RolledBack?)
      && (s.child.Starting? || s.child.Working? || s.child.Waiting? || s.child.Committing? || s.child.Announcing?
          ==> Pending(s).None?)
      && (s.child.Closing? ==> Pending(s) == Some(Success))
      && (s.child.Failing? && s.database.Committed? ==> s.lost || Pending(s) == Some(Success))
  }

  /** What the parent has concluded is so. */
  ghost predicate ConclusionIsTrue(s: State) {
    && (s.parent == Cleaning(Success) || s.parent == Done(Returned) ==> s.database.Committed?)
    && (s.parent == Cleaning(ChildError) || s.parent == Done(RaisedChildError) ==> s.database.RolledBack?)
    && (s.parent == Done(Returned) || s.parent == Done(RaisedChildError) ==> s.child.Exited?)
  }

  ghost predicate Inv(s: State) {
    CommitNeedsAuthority(s) && ChildIsTrue(s) && TerminalIsTrue(s) && ConclusionIsTrue(s)
  }

  predicate OfChild(step: Step) {
    step.ChildMoves? || step.ChildKilled? || step.PipeBreaks?
  }

  lemma ChildKeepsAuthority(s: State, step: Step)
    requires CommitNeedsAuthority(s) && OfChild(step)
    ensures CommitNeedsAuthority(Next(s, step))
  {
  }

  lemma ParentKeepsAuthority(s: State, step: Step)
    requires CommitNeedsAuthority(s) && !OfChild(step)
    ensures CommitNeedsAuthority(Next(s, step))
  {
  }

  lemma NextKeepsChild(s: State, step: Step)
    requires ChildIsTrue(s)
    ensures ChildIsTrue(Next(s, step))
  {
  }

  lemma ChildKeepsTerminal(s: State, step: Step)
    requires ChildIsTrue(s) && TerminalIsTrue(s) && OfChild(step)
    ensures TerminalIsTrue(Next(s, step))
  {
    forall m { FirstTerminalAppend(s.toParent, m); }
  }

  lemma ParentKeepsTerminal(s: State, step: Step)
    requires ChildIsTrue(s) && TerminalIsTrue(s) && !OfChild(step)
    ensures TerminalIsTrue(Next(s, step))
  {
  }

  lemma NextKeepsConclusion(s: State, step: Step)
    requires ChildIsTrue(s) && TerminalIsTrue(s) && ConclusionIsTrue(s)
    ensures ConclusionIsTrue(Next(s, step))
  {
  }

  lemma NextKeepsInv(s: State, step: Step)
    requires Inv(s)
    ensures Inv(Next(s, step))
  {
    hide Next, CommitNeedsAuthority, ChildIsTrue, TerminalIsTrue, ConclusionIsTrue;
    NextKeepsChild(s, step);
    NextKeepsConclusion(s, step);
    if OfChild(step) {
      ChildKeepsAuthority(s, step);
      ChildKeepsTerminal(s, step);
    } else {
      ParentKeepsAuthority(s, step);
      ParentKeepsTerminal(s, step);
    }
  }

  lemma {:induction false} RunKeepsInv(s: State, steps: seq<Step>)
    requires Inv(s)
    ensures Inv(Run(s, steps))
    decreases |steps|
  {
    hide Inv, Next;
    if steps != [] {
      NextKeepsInv(s, steps[0]);
      RunKeepsInv(Next(s, steps[0]), steps[1..]);
    }
  }

  lemma InitIsConsistent()
    ensures Inv(Init())
  {
  }

  // ---- Results over every run ----

  /** The word is given at one place only: answering the ready-to-commit checkpoint over an unbroken pipe. */
  lemma AuthorizationIsTheAnswerToReady(s: State, step: Step)
    requires !s.authorized && Next(s, step).authorized
    ensures step.Respond? && s.parent == Handling(Phase(READY)) && !s.lost
    ensures Next(s, step).toChild == s.toChild + [Commit]
  {
  }

  /** Step k of a run sends "commit" in answer to ready-to-commit. */
  ghost predicate AnswersReady(s: State, steps: seq<Step>, k: nat) {
    && k < |steps| && steps[k].Respond?
    && var before := Run(s, steps[..k]);
       before.parent == Handling(Phase(READY)) && !before.lost
       && Next(before, steps[k]).toChild == before.toChild + [Commit]
  }

  lemma {:induction false} WordWasGiven(s: State, steps: seq<Step>) returns (k: nat)
    requires !s.authorized && Run(s, steps).authorized
    ensures AnswersReady(s, steps, k)
    decreases |steps|
  {
    hide Next;
    if Next(s, steps[0]).authorized {
      AuthorizationIsTheAnswerToReady(s, steps[0]);
      k := 0;
      assert steps[..0] == [];
    } else {
      var later := WordWasGiven(Next(s, steps[0]), steps[1..]);
      k := later + 1;
      assert steps[..k][0] == steps[0] && steps[..k][1..] == steps[1..][..later];
    }
  }

  /**
   The child commits only after the parent answered its ready-to-commit with "commit"
   over an unbroken pipe, whatever breaks or dies.
   */
  lemma CommitFollowsAuthorization(steps: seq<Step>)
    ensures Run(Init(), steps).database.Committed? ==>
      Run(Init(), steps).authorized && exists k :: AnswersReady(Init(), steps, k)
  {
    InitIsConsistent();
    RunKeepsInv(Init(), steps);
    hide Next, Run, AnswersReady;
    if Run(Init(), steps).database.Committed? {
      var k := WordWasGiven(Init(), steps);
    }
  }

  /** Once a cancellation has been honoured it stays so, and the transaction is not committed in any later state. */
  lemma {:induction false} HonouredNeverCommits(s: State, steps: seq<Step>)
    requires Inv(s) && Honoured(s.parent)
    ensures Honoured(Run(s, steps).parent) && !Run(s, steps).database.Committed?
    decreases |steps|
  {
    if steps == [] {
      hide Next;
    } else {
      NextKeepsInv(s, steps[0]);
      assert Honoured(Next(s, steps[0]).parent);
      hide Next, Inv, Honoured;
      HonouredNeverCommits(Next(s, steps[0]), steps[1..]);
    }
  }

  /** A cancellation that reaches the loop before authorization is honoured, and nothing afterwards commits. */
  lemma CancelBeforeAuthorization(before: seq<Step>, after: seq<Step>)
    ensures
      var s := Run(Init(), before);
      Cancellable(s.parent) && !s.authorized ==> !Run(Next(s, Cancel), after).database.Committed?
  {
    InitIsConsistent();
    RunKeepsInv(Init(), before);
    var s := Run(Init(), before);
    if Cancellable(s.parent) && !s.authorized {
      NextKeepsInv(s, Cancel);
      hide Inv, Run;
      HonouredNeverCommits(Next(s, Cancel), after);
    }
  }

  /** A cancellation that reaches the loop after authorization only sends it back to polling; it cannot end the call. */
  lemma CancelAfterAuthorization(steps: seq<Step>)
    ensures
      var s := Run(Init(), steps);
      && (Cancellable(s.parent) && s.authorized ==> Next(s, Cancel) == s.(parent := Polling))
      && (s.authorized && s.parent.Done? && s.parent.result.RaisedCancelled? ==> s.parent.result.reason == PipeClosed)
  {
    InitIsConsistent();
    RunKeepsInv(Init(), steps);
    hide Run;
  }

  /** An outcome of the transaction is final. */
  lemma {:induction false} OutcomeIsFinal(s: State, steps: seq<Step>)
    requires Inv(s) && !s.database.Active?
    ensures Run(s, steps).database == s.database
    decreases |steps|
  {
    if steps == [] {
      hide Next;
    } else {
      NextKeepsInv(s, steps[0]);
      assert Next(s, steps[0]).database == s.database;
      hide Next, Inv;
      OutcomeIsFinal(Next(s, steps[0]), steps[1..]);
    }
  }

  /** A normal return means committed, a reported child error means rolled back, then and in every later state. */
  lemma ResultsAreTrue(before: seq<Step>, after: seq<Step>)
    ensures
      var s := Run(Init(), before);
      && (s.parent == Done(Returned) ==> Run(s, after).database.Committed?)
      && (s.parent == Done(RaisedChildError) ==> Run(s, after).database.RolledBack?)
  {
    InitIsConsistent();
    RunKeepsInv(Init(), before);
    var s := Run(Init(), before);
    if s.parent == Done(Returned) || s.parent == Done(RaisedChildError) {
      hide Run;
      OutcomeIsFinal(s, after);
    }
  }

  /**
   In every reachable state a parent stopping on an honoured cancellation has a way to
   end, with the transaction rolled back.
   */
  lemma StoppingCanEnd(steps: seq<Step>)
    requires Run(Init(), steps).parent == Stopping(CancelHonoured)
    ensures
      var n := Next(Next(Run(Init(), steps), ChildKilled), StopEnds(true, false));
      n.parent == Done(RaisedCancelled(CancelHonoured)) && n.database.RolledBack?
  {
    InitIsConsistent();
    RunKeepsInv(Init(), steps);
    hide Run;
    NextKeepsInv(Run(Init(), steps), ChildKilled);
  }

  // ---- The parent's loop ----

  /** Everything but the parent and its caller. */
  type OtherStep = step: Step | OfChild(step) witness PipeBreaks

  /** What happens before the parent's next turn: the child's moves, and whether an await is cancelled. */
  datatype Turn = Turn(moves: seq<OtherStep>, cancel: bool, pipeError: bool, stopped: bool)

  /** The one step a turn of the parent takes. */
  function Choice(s: State, t: Turn): Step {
    if t.cancel && Cancellable(s.parent) then Cancel
    else match s.parent
      case Polling => if t.pipeError then PipeError else Poll
      case CheckingLiveness => Liveness
      case Handling(m) => Respond
      case Notifying => Notified
      case Stopping(reason) => StopEnds(t.stopped, t.cancel)
      case Cleaning(outcome) => CleanEnds
      case Done(result) => Poll
  }

  function Watch(s: State, turns: seq<Turn>): State
    decreases |turns|
  {
    if turns == [] then s
    else
      var before := Watch(s, turns[..|turns| - 1]);
      var moved := Run(before, turns[|turns| - 1].moves);
      Next(moved, Choice(moved, turns[|turns| - 1]))
  }

  lemma WatchOneMore(s: State, turns: seq<Turn>, i: nat)
    requires i < |turns|
    ensures
      var moved := Run(Watch(s, turns[..i]), turns[i].moves);
      Watch(s, turns[..i + 1]) == Next(moved, Choice(moved, turns[i]))
  {
    assert turns[..i + 1][..i] == turns[..i];
  }

  lemma WatchNothing(s: State, turns: seq<Turn>)
    ensures Watch(s, turns[..0]) == s && turns[..|turns|] == turns
  {
  }

  class MigrationParent {
    var parent: Parent
    var commitAuthorized: bool
    var child: Child
    var database: Database
    var toParent: seq<Message>
    var toChild: seq<Reply>
    var lost: bool

    function Fields(): State
      reads this
    {
      State(parent, commitAuthorized, child, database, toParent, toChild, lost)
    }

    constructor ()
      ensures Fields() == Init()
    {
      parent, commitAuthorized, child, database := Polling, false, Starting, Active;
      toParent, toChild, lost := [], [], false;
    }

    /** The child and the operating system go on while the parent awaits. */
    method Await(moves: seq<OtherStep>)
      modifies this
      ensures Fields() == Run(old(Fields()), moves)
    {
      var s := Run(Fields(), moves);
      parent, commitAuthorized, child, database := s.parent, s.authorized, s.child, s.database;
      toParent, toChild, lost := s.toParent, s.toChild, s.lost;
    }

    /** Stop the child, dropping what it still says when a cancellation is honoured. */
    method StopProcess(reason: StopReason)
      modifies this`parent, this`toParent, this`toChild
      ensures Fields() == BeginStop(old(Fields()), reason)
    {
      parent := Stopping(reason);
      while reason.CancelHonoured? && toParent != []
        modifies this`toParent
        invariant reason.PipeClosed? ==> toParent == old(toParent)
        decreases |toParent|
      {
        toParent := toParent[1..];
      }
      if !child.Exited? && !lost {
        toChild := toChild + [Abort];
      }
    }

    /** Answer the message in hand. */
    method Answer()
      requires parent.Handling?
      modifies this`parent, this`toChild, this`commitAuthorized
      ensures Fields() == AfterRespond(old(Fields()), old(parent.message))
    {
      match parent.message {
        case Backend => parent := Polling;
        case Phase(checkpoint) =>
          if lost || child.Exited? {
            parent := Stopping(PipeClosed);
          } else if checkpoint == READY {
            toChild := toChild + [Commit];
            commitAuthorized := true;
            parent := Notifying;
          } else {
            toChild := toChild + [Continue];
            parent := Polling;
          }
        case CommittedMessage => parent := Cleaning(Success);
        case ErrorMessage => parent := Cleaning(ChildError);
      }
    }

    method TakeTurn(turn: Turn)
      modifies this
      ensures Fields() == Next(old(Fields()), Choice(old(Fields()), turn))
    {
      if turn.cancel && Cancellable(parent) {
        if commitAuthorized {
          parent := Polling;
        } else {
          StopProcess(CancelHonoured);
        }
        return;
      }
      match parent {
        case Polling =>
          if turn.pipeError {
            if lost || (child.Exited? && toParent == []) {
              StopProcess(PipeClosed);
            }
          } else if toParent != [] {
            parent, toParent := Handling(toParent[0]), toParent[1..];
          } else {
            parent := CheckingLiveness;
          }
        case CheckingLiveness => parent := if child.Exited? then Done(RaisedNoOutcome) else Polling;
        case Handling(_) => Answer();
        case Notifying => parent := Polling;
        case Stopping(reason) =>
          if turn.cancel {
            parent := Done(RaisedCancelled(reason));
          } else if !turn.stopped {
            parent := Done(RaisedNotStopped(reason));
          } else if child.Exited? {
            parent := Done(if reason.CancelHonoured? then RaisedCancelled(reason) else RaisedPipeClosed);
          }
        case Cleaning(outcome) =>
          if child.Exited? {
            parent := Done(if outcome.Success? then Returned else RaisedChildError);
          }
        case Done(_) =>
      }
    }

    /** The whole call under any schedule: what it reports about the transaction is so. */
    method ExecuteAsync(turns: seq<Turn>) returns (r: Option<Result>)
      requires Fields() == Init()
      modifies this
      ensures Fields() == Watch(Init(), turns) && Inv(Fields())
      ensures r.Some? <==> parent.Done?
      ensures r == Some(Returned) ==> database.Committed? && child.Exited?
      ensures r == Some(RaisedChildError) ==> database.RolledBack?
      ensures r == Some(RaisedCancelled(CancelHonoured)) ==> !database.Committed? && !commitAuthorized
      ensures database.Committed? ==> commitAuthorized
    {
      hide Next, Run, Inv, Watch, Choice;
      InitIsConsistent();
      WatchNothing(Init(), turns);
      var i := 0;
      while i < |turns|
        invariant 0 <= i <= |turns| && Fields() == Watch(Init(), turns[..i]) && Inv(Fields())
      {
        WatchOneMore(Init(), turns, i);
        RunKeepsInv(Fields(), turns[i].moves);
        Await(turns[i].moves);
        NextKeepsInv(Fields(), Choice(Fields(), turns[i]));
        TakeTurn(turns[i]);
        i := i + 1;
      }
      r := if parent.Done? then Some(parent.result) else None;
      Conclusions(Fields());
    }
  }

  lemma Conclusions(s: State)
    requires Inv(s)
    ensures s.parent == Done(Returned) ==> s.database.Committed? && s.child.Exited?
    ensures s.parent == Done(RaisedChildError) ==> s.database.RolledBack?
    ensures s.parent == Done(RaisedCancelled(CancelHonoured)) ==> !s.database.Committed? && !s.authorized
    ensures s.database.Committed? ==> s.authorized
  {
  }
}
