/** What whole runs of an approval session answer, told from what was asked and taken alone. */
module CodexApprovalRuns {
  import opened Prelude
  import opened OrderedMaps
  import opened CodexApprovals
  import R = CodexRpc

  /** One act of a run, and whether it took effect. */
  datatype Step = Step(act: Act, ok: bool)

  /** The id that arrived last under a key. */
  function LatestId(start: OrderedMap<R.RpcId>, history: seq<Step>, key: string): Option<R.RpcId> {
    if history == [] then (if Has(start, key) then Some(Get(start, key)) else None) else
      var front, last := history[..|history| - 1], history[|history| - 1];
      if last.ok && last.act.Arrive? && Key(last.act.request.id) == key then Some(last.act.request.id)
      else LatestId(start, front, key)
  }

  /** The requests without an answer, by their keys. All go when a turn, the connection or the session ends. */
  function OpenRequests(start: OrderedMap<R.RpcId>, history: seq<Step>): OrderedMap<R.RpcId> {
    if history == [] then start else
      var open, last := OpenRequests(start, history[..|history| - 1]), history[|history| - 1];
      if !last.ok then open
      else match last.act
        case Arrive(request, _) => Put(open, Key(request.id), request.id)
        case Respond(key, _, _) => Drop(open, key)
        case StartTurn(_) => open
        case CompleteTurn(_) | Disconnect | Terminate(_) => []
  }

  function DeclineAll(open: OrderedMap<R.RpcId>): seq<Answer> {
    if open == [] then [] else DeclineAll(open[..|open| - 1]) + [Answer(open[|open| - 1].value, false)]
  }

  /**
   * One answer for each response that took effect, to the latest request under its key and
   * with its own decision, and at the end of the session one decline for each open request.
   */
  function Answers(start: OrderedMap<R.RpcId>, history: seq<Step>): seq<Answer> {
    if history == [] then [] else
      var front, last := history[..|history| - 1], history[|history| - 1];
      if last.ok && last.act.Respond? && LatestId(start, front, last.act.key).Some?
      then Answers(start, front) + [Answer(LatestId(start, front, last.act.key).value, last.act.accepted)]
      else if last.ok && last.act.Terminate? then Answers(start, front) + DeclineAll(OpenRequests(start, front))
      else Answers(start, front)
  }

  function ActiveTurn(start: string, history: seq<Step>): string {
    if history == [] then start else
      var before, last := ActiveTurn(start, history[..|history| - 1]), history[|history| - 1];
      match last.act
      case StartTurn(turn) => if turn != "" then turn else before
      case CompleteTurn(_) => if last.ok then "" else before
      case Disconnect => ""
      case _ => before
  }

  function LastCompleted(start: string, history: seq<Step>): string {
    if history == [] then start else
      var before, last := LastCompleted(start, history[..|history| - 1]), history[|history| - 1];
      if last.ok && last.act.CompleteTurn? && last.act.turn != "" then last.act.turn else before
  }

  predicate HasEnded(start: State, history: seq<Step>) {
    !start.open || exists i | 0 <= i < |history| :: history[i].ok && history[i].act.Terminate?
  }

  /** When an act takes effect, by what happened before it. */
  predicate TakesEffect(start: State, before: seq<Step>, step: Step) {
    var open := OpenRequests(start.approvals, before);
    match step.act
    case Arrive(_, isApproval) => step.ok <==> isApproval && !HasEnded(start, before)
    case Respond(key, _, connected) => step.ok ==> connected && Has(open, key) && !HasEnded(start, before)
    case StartTurn(_) | Disconnect => step.ok
    case CompleteTurn(turn) =>
      step.ok <==>
        || turn == ""
        || (turn != LastCompleted(start.lastCompletedTurn, before)
            && ActiveTurn(start.activeTurn, before) in {"", turn})
    case Terminate(connected) => step.ok <==> !HasEnded(start, before) && (connected || open == [])
  }

  ghost predicate IsHistory(start: State, acts: seq<Act>, history: seq<Step>) {
    && |history| == |acts|
    && forall i | 0 <= i < |acts| :: history[i].act == acts[i] && TakesEffect(start, history[..i], history[i])
  }

  // ---------------------------------------------------------------------
  // The state of a session follows from its history.

  lemma {:induction false} OpenDistinct(start: OrderedMap<R.RpcId>, history: seq<Step>)
    requires Distinct(Keys(start))
    ensures Distinct(Keys(OpenRequests(start, history)))
  {
    if history != [] {
      var front, last := history[..|history| - 1], history[|history| - 1];
      var open := OpenRequests(start, front);
      OpenDistinct(start, front);
      if last.ok && last.act.Arrive? {
        PutDistinct(open, Key(last.act.request.id), last.act.request.id);
      } else if last.ok && last.act.Respond? && Has(open, last.act.key) {
        DropDistinct(open, last.act.key);
      }
    }
  }

  lemma {:induction false} LatestIsOpen(start: OrderedMap<R.RpcId>, history: seq<Step>, key: string)
    requires Distinct(Keys(start)) && Has(OpenRequests(start, history), key)
    ensures LatestId(start, history, key) == Some(Get(OpenRequests(start, history), key))
  {
    if history != [] {
      var front, last := history[..|history| - 1], history[|history| - 1];
      var open := OpenRequests(start, front);
      OpenDistinct(start, front);
      if last.ok && last.act.Arrive? {
        PutOther(open, Key(last.act.request.id), last.act.request.id, key);
      } else if last.ok && last.act.Respond? {
        DropOther(open, last.act.key, key);
      }
      if Has(open, key) {
        LatestIsOpen(start, front, key);
      }
    }
  }

  lemma {:induction false} PutOther<V>(m: OrderedMap<V>, key: string, value: V, other: string)
    ensures key == other ==> Has(Put(m, key, value), other) && Get(Put(m, key, value), other) == value
    ensures key != other ==> (Has(Put(m, key, value), other) <==> Has(m, other))
    ensures key != other && Has(m, other) ==> Get(Put(m, key, value), other) == Get(m, other)
  {
    if key == other {
      FindUnique(Put(m, key, value), other, Find(m, other));
    } else {
      PutKeepsPlace(m, key, value, other);
    }
  }

  lemma {:induction false} DropOther<V>(m: OrderedMap<V>, key: string, other: string)
    requires Distinct(Keys(m)) && Has(Drop(m, key), other)
    ensures Has(m, other) && Get(m, other) == Get(Drop(m, key), other)
  {
    if Has(m, key) {
      var i := Find(Drop(m, key), other);
      DropAt(m, key, i);
      var k := if i < Find(m, key) then i else i + 1;
      forall j | 0 <= j < k ensures m[j].key != other {
        DistinctAt(Keys(m), j, k);
      }
      FindUnique(m, other, k);
    }
  }

  /** The state of a session after a history. */
  ghost predicate Follows(start: State, history: seq<Step>, st: State) {
    && st.open == !HasEnded(start, history)
    && st.approvals == OpenRequests(start.approvals, history)
    && st.activeTurn == ActiveTurn(start.activeTurn, history)
    && st.lastCompletedTurn == LastCompleted(start.lastCompletedTurn, history)
    && st.answered == start.answered + Answers(start.approvals, history)
  }

  predicate Takes(st: State, act: Act) {
    match act
    case Arrive(_, isApproval) => isApproval && st.open
    case Respond(key, _, connected) => connected && st.open && Has(st.approvals, key) && Has(st.shown, key)
    case StartTurn(_) | Disconnect => true
    case CompleteTurn(turn) => !IsStale(st, turn)
    case Terminate(connected) => st.open && (connected || st.approvals == [])
  }

  lemma {:induction false} DeclinesAll(open: OrderedMap<R.RpcId>, n: nat)
    requires n <= |open|
    ensures Declines(open, n) == DeclineAll(open[..n])
  {
    if n != 0 {
      DeclinesAll(open, n - 1);
      assert open[..n][..n - 1] == open[..n - 1];
      assert Declines(open, n) == Declines(open, n - 1) + [Answer(open[n - 1].value, false)];
    }
  }

  lemma {:induction false} DeclinesWhole(open: OrderedMap<R.RpcId>)
    ensures Declines(open, |open|) == DeclineAll(open)
  {
    DeclinesAll(open, |open|);
    assert open[..|open|] == open;
  }

  lemma {:induction false} EndedMore(start: State, history: seq<Step>, step: Step)
    ensures HasEnded(start, history + [step]) <==> HasEnded(start, history) || (step.ok && step.act.Terminate?)
  {
    var more := history + [step];
    if HasEnded(start, history) && start.open {
      var i :| 0 <= i < |history| && history[i].ok && history[i].act.Terminate?;
      assert more[i] == history[i];
    }
    if step.ok && step.act.Terminate? {
      assert more[|history|] == step;
    }
  }

  lemma {:induction false} AnswersSnoc(start: OrderedMap<R.RpcId>, history: seq<Step>, step: Step)
    ensures step.ok && step.act.Respond? && LatestId(start, history, step.act.key).Some?
      ==> Answers(start, history + [step])
          == Answers(start, history) + [Answer(LatestId(start, history, step.act.key).value, step.act.accepted)]
    ensures step.ok && step.act.Terminate?
      ==> Answers(start, history + [step]) == Answers(start, history) + DeclineAll(OpenRequests(start, history))
    ensures !step.ok || (!step.act.Respond? && !step.act.Terminate?)
      ==> Answers(start, history + [step]) == Answers(start, history)
  {
    assert (history + [step])[..|history|] == history;
  }

  lemma {:induction false} ResponseAnswers(start: State, history: seq<Step>, st: State, act: Act)
    requires Distinct(Keys(start.approvals)) && Follows(start, history, st)
    requires act.Respond? && Takes(st, act)
    ensures Do(st, act).answered == start.answered + Answers(start.approvals, history + [Step(act, true)])
  {
    AnswersSnoc(start.approvals, history, Step(act, true));
    LatestIsOpen(start.approvals, history, act.key);
  }

  lemma {:induction false} TerminationAnswers(start: State, history: seq<Step>, st: State, act: Act)
    requires Follows(start, history, st) && act.Terminate? && Takes(st, act)
    ensures Do(st, act).answered == start.answered + Answers(start.approvals, history + [Step(act, true)])
  {
    AnswersSnoc(start.approvals, history, Step(act, true));
    DeclinesWhole(st.approvals);
    Regroup(start.answered, Answers(start.approvals, history), DeclineAll(st.approvals));
  }

  lemma {:induction false} OthersAnswerNothing(start: State, history: seq<Step>, st: State, act: Act)
    requires Follows(start, history, st) && (Takes(st, act) ==> !act.Respond? && !act.Terminate?)
    ensures Do(st, act).answered == start.answered + Answers(start.approvals, history + [Step(act, Takes(st, act))])
  {
    AnswersSnoc(start.approvals, history, Step(act, Takes(st, act)));
  }

  lemma {:induction false} AnswersMore(start: State, history: seq<Step>, st: State, act: Act)
    requires Distinct(Keys(start.approvals)) && Follows(start, history, st)
    ensures Do(st, act).answered
      == start.answered + Answers(start.approvals, history + [Step(act, Takes(st, act))])
  {
    if Takes(st, act) && act.Respond? {
      ResponseAnswers(start, history, st, act);
    } else if Takes(st, act) && act.Terminate? {
      TerminationAnswers(start, history, st, act);
    } else {
      OthersAnswerNothing(start, history, st, act);
    }
  }

  lemma {:induction false} StepFollows(start: State, history: seq<Step>, st: State, act: Act)
    requires Distinct(Keys(start.approvals)) && Follows(start, history, st)
    ensures TakesEffect(start, history, Step(act, Takes(st, act)))
    ensures Follows(start, history + [Step(act, Takes(st, act))], Do(st, act))
  {
    var step := Step(act, Takes(st, act));
    assert (history + [step])[..|history|] == history;
    EndedMore(start, history, step);
    AnswersMore(start, history, st, act);
  }

  ghost predicate Played(start: State, acts: seq<Act>, history: seq<Step>, st: State) {
    IsHistory(start, acts, history) && Follows(start, history, st) && st == DoAll(start, acts)
  }

  lemma {:induction false} PlaysOn(start: State, acts: seq<Act>, history: seq<Step>, st: State, act: Act)
    requires Distinct(Keys(start.approvals)) && Played(start, acts, history, st)
    ensures Played(start, acts + [act], history + [Step(act, Takes(st, act))], Do(st, act))
  {
    StepFollows(start, history, st, act);
    HistoryMore(start, acts, history, act, Takes(st, act));
    assert (acts + [act])[..|acts|] == acts;
  }

  lemma {:induction false} HistoryMore(start: State, acts: seq<Act>, history: seq<Step>, act: Act, ok: bool)
    requires IsHistory(start, acts, history) && TakesEffect(start, history, Step(act, ok))
    ensures IsHistory(start, acts + [act], history + [Step(act, ok)])
  {
    var more := history + [Step(act, ok)];
    assert more[..|history|] == history;
    forall i | 0 <= i < |acts| ensures TakesEffect(start, more[..i], more[i]) {
      assert more[..i] == history[..i];
    }
  }

  /** Plays a run of a session. */
  method Play(session: Session, acts: seq<Act>) returns (history: seq<Step>)
    requires Distinct(Keys(session.approvals))
    modifies session
    ensures IsHistory(old(session.View()), acts, history)
    ensures session.answered == old(session.answered) + Answers(old(session.approvals), history)
    ensures session.approvals == OpenRequests(old(session.approvals), history)
    ensures session.View() == DoAll(old(session.View()), acts)
  {
    history := [];
    for i := 0 to |acts|
      invariant Played(old(session.View()), acts[..i], history, session.View())
    {
      assert acts[..i + 1] == acts[..i] + [acts[i]];
      PlaysOn(old(session.View()), acts[..i], history, session.View(), acts[i]);
      var ok := Perform(session, acts[i]);
      history := history + [Step(acts[i], ok)];
    }
    assert acts[..|acts|] == acts;
  }

  method Perform(session: Session, act: Act) returns (ok: bool)
    modifies session
    ensures ok == Takes(old(session.View()), act) && session.View() == Do(old(session.View()), act)
  {
    match act {
      case Arrive(request, isApproval) =>
        ok := isApproval && session.open;
        session.Receive(request, isApproval);
      case Respond(key, accepted, connected) =>
        var result := session.RespondToExtension(key, accepted, connected);
        ok := result.Ok?;
      case StartTurn(turn) =>
        session.TurnStarted(turn);
        ok := true;
      case CompleteTurn(turn) =>
        ok := !IsStale(session.View(), turn);
        session.TurnCompleted(turn);
      case Disconnect =>
        session.Clear();
        ok := true;
      case Terminate(connected) =>
        var result := session.Terminate(connected);
        ok := result.Ok?;
    }
  }
}
