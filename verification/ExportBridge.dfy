/** The Android bridge that saves one AI export to a document the user picks.

    A call leaves its reply pending, opens the system picker and returns.  The picker may
    answer several times, each answer with a document starts a worker thread, and workers
    report back on the UI thread in any order, also after the bridge was disposed.
    Everything here runs on the UI thread, so a run is any sequence of these events. */
module ExportBridge {
  import opened Common

  type Bytes = seq<int>

  datatype Reply = Saved | Cancelled | NotImplemented | Busy | Invalid | PickerFailed | WriteFailed | Interrupted

  /** A worker holds the reply object and the bytes it was started with. */
  datatype Worker = Worker(request: nat, bytes: Bytes)

  /** Requests are numbered in the order of arrival; `asked` keeps the bytes each one brought.
      `open` says whether the call handler is installed, `saved` lists documents fully written. */
  datatype State = State(
    open: bool,
    pending: Option<nat>,
    content: Option<Bytes>,
    workers: multiset<Worker>,
    asked: seq<Bytes>,
    answers: seq<Answer<Reply>>,
    saved: seq<Worker>)

  datatype Event =
    | Call(saveJson: bool, valid: bool, bytes: Bytes, pickerOpens: bool)
    | PickerResult(ours: bool, chosen: bool)
    | WorkerDone(worker: Worker, wrote: bool)
    | Dispose

  const Initial := State(true, None, None, multiset{}, [], [], [])

  function Reject(s: State, r: nat, reply: Reply): State {
    s.(answers := s.answers + [Answer(r, reply)])
  }

  /** `clear()` and the answer that follows it. */
  function Finish(s: State, r: nat, reply: Reply): State {
    s.(pending := None, content := None, answers := s.answers + [Answer(r, reply)])
  }

  function Step(s: State, e: Event): State {
    match e
    case Call(saveJson, valid, bytes, pickerOpens) =>
      if !s.open then s
      else
        var r, t := |s.asked|, s.(asked := s.asked + [bytes]);
        if !saveJson then Reject(t, r, NotImplemented)
        else if s.pending.Some? then Reject(t, r, Busy)
        else if !valid then Reject(t, r, Invalid)
        else if pickerOpens then t.(pending := Some(r), content := Some(bytes))
        else Finish(t, r, PickerFailed)
    case PickerResult(ours, chosen) =>
      if !ours || s.pending.None? || s.content.None? then s
      else if !chosen then Finish(s, s.pending.value, Cancelled)
      else s.(workers := s.workers + multiset{Worker(s.pending.value, s.content.value)})
    case WorkerDone(w, wrote) =>
      if w !in s.workers then s
      else
        var t := s.(workers := s.workers - multiset{w}, saved := if wrote then s.saved + [w] else s.saved);
        if s.pending == Some(w.request) then Finish(t, w.request, if wrote then Saved else WriteFailed) else t
    case Dispose =>
      var t := s.(open := false, pending := None, content := None);
      if s.pending.Some? then Reject(t, s.pending.value, Interrupted) else t
  }

  /** The bridge object.  `workers`, `asked`, `answers` and `saved` record what happened around it. */
  class AiExportFileBridge {
    var open: bool
    var pending: Option<nat>
    var content: Option<Bytes>
    var workers: multiset<Worker>
    var asked: seq<Bytes>
    var answers: seq<Answer<Reply>>
    var saved: seq<Worker>

    function Contents(): State
      reads this
    {
      State(open, pending, content, workers, asked, answers, saved)
    }

    constructor ()
      ensures Contents() == Initial
    {
      open, pending, content := true, None, None;
      workers, asked, answers, saved := multiset{}, [], [], [];
    }

    method Forget()
      modifies this`pending, this`content
      ensures pending == None && content == None
    {
      pending, content := None, None;
    }

    method Respond(r: nat, reply: Reply)
      modifies this`answers
      ensures answers == old(answers) + [Answer(r, reply)]
    {
      answers := answers + [Answer(r, reply)];
    }

    method OnCall(saveJson: bool, valid: bool, bytes: Bytes, pickerOpens: bool)
      modifies this
      ensures Contents() == Step(old(Contents()), Call(saveJson, valid, bytes, pickerOpens))
    {
      if !open {
        return;
      }
      var r := |asked|;
      asked := asked + [bytes];
      if !saveJson {
        Respond(r, NotImplemented);
      } else if pending.Some? {
        Respond(r, Busy);
      } else if !valid {
        Respond(r, Invalid);
      } else {
        pending, content := Some(r), Some(bytes);
        if !pickerOpens {
          Forget();
          Respond(r, PickerFailed);
        }
      }
    }

    method OnActivityResult(ours: bool, chosen: bool) returns (handled: bool)
      modifies this
      ensures Contents() == Step(old(Contents()), PickerResult(ours, chosen)) && handled == ours
    {
      if !ours {
        return false;
      }
      if pending.None? || content.None? {
        return true;
      }
      var result, bytes := pending.value, content.value;
      if !chosen {
        Forget();
        Respond(result, Cancelled);
        return true;
      }
      workers := workers + multiset{Worker(result, bytes)};
      return true;
    }

    method OnWorkerDone(w: Worker, wrote: bool)
      modifies this
      ensures Contents() == Step(old(Contents()), WorkerDone(w, wrote))
    {
      if w in workers {
        workers := workers - multiset{w};
        if wrote {
          saved := saved + [w];
        }
        if pending == Some(w.request) {
          Forget();
          Respond(w.request, if wrote then Saved else WriteFailed);
        }
      }
    }

    method Close()
      modifies this
      ensures Contents() == Step(old(Contents()), Dispose)
    {
      open := false;
      var result := pending;
      Forget();
      if result.Some? {
        Respond(result.value, Interrupted);
      }
    }
  }

  function Run(events: seq<Event>): State {
    if events == [] then Initial else Step(Run(events[..|events| - 1]), events[|events| - 1])
  }

  /** Every request is owed exactly one answer: given once, unless it is the pending one. */
  ghost predicate Settled(s: State) {
    forall r: nat :: SettledFor(s, r)
  }

  ghost predicate SettledFor(s: State, r: nat) {
    TimesAnswered(s.answers, r) == if r < |s.asked| && s.pending != Some(r) then 1 else 0
  }

  ghost predicate PendingHonest(s: State) {
    && (s.pending.Some? ==> s.pending.value < |s.asked| && s.content == Some(s.asked[s.pending.value]))
    && (s.pending.None? ==> s.content.None?)
  }

  ghost predicate WorkersHonest(s: State) {
    forall w :: w in s.workers ==> WorkerHonest(s, w)
  }

  ghost predicate Written(s: State, r: nat) {
    r < |s.asked| && Worker(r, s.asked[r]) in s.saved
  }

  ghost predicate SavedHonest(s: State) {
    forall k :: 0 <= k < |s.answers| && s.answers[k].reply == Saved ==> Written(s, s.answers[k].request)
  }

  /** Replies and workers carry the bytes of their own request, and a success was really written. */
  ghost predicate Honest(s: State) {
    PendingHonest(s) && WorkersHonest(s) && SavedHonest(s)
  }

  /** Giving one answer settles a state if it answers the pending or the newest request. */
  lemma AnswerSettles(s: State, t: State, a: Answer<Reply>)
    requires Settled(s) && t.answers == s.answers + [a]
    requires |s.asked| <= |t.asked| <= |s.asked| + 1 && (s.pending.Some? ==> s.pending.value < |s.asked|)
    requires
      || (|t.asked| == |s.asked| && s.pending == Some(a.request) && t.pending == None)
      || (|t.asked| == |s.asked| + 1 && a.request == |s.asked| && t.pending == s.pending)
    ensures Settled(t)
  {
    forall r: nat
      ensures SettledFor(t, r)
    {
      AnsweredOnceMore(s.answers, a, r);
      assert SettledFor(s, r);
    }
  }

  /** Without an answer a state stays settled, also when a new request becomes the pending one. */
  lemma NoAnswerSettles(s: State, t: State)
    requires Settled(s) && t.answers == s.answers
    requires
      || (|t.asked| == |s.asked| && t.pending == s.pending)
      || (|t.asked| == |s.asked| + 1 && s.pending == None && t.pending == Some(|s.asked|))
    ensures Settled(t)
  {
    forall r: nat
      ensures SettledFor(t, r)
    {
      assert SettledFor(s, r);
    }
  }

  lemma StepSettled(s: State, e: Event)
    requires Settled(s) && PendingHonest(s)
    ensures Settled(Step(s, e))
  {
    var t := Step(s, e);
    if |t.answers| == |s.answers| {
      NoAnswerSettles(s, t);
    } else {
      AnswerSettles(s, t, t.answers[|s.answers|]);
    }
  }

  lemma StepPendingHonest(s: State, e: Event)
    requires PendingHonest(s)
    ensures PendingHonest(Step(s, e))
  {
  }

  ghost predicate WorkerHonest(s: State, w: Worker) {
    w.request < |s.asked| && w.bytes == s.asked[w.request]
  }

  /** A step starts at most one worker, for the pending request. */
  lemma StepWorkers(s: State, e: Event, w: Worker)
    requires w in Step(s, e).workers
    ensures w in s.workers || (s.pending.Some? && s.content.Some? && w == Worker(s.pending.value, s.content.value))
    ensures s.asked <= Step(s, e).asked
  {
  }

  lemma StepWorkersHonest(s: State, e: Event)
    requires PendingHonest(s) && WorkersHonest(s)
    ensures WorkersHonest(Step(s, e))
  {
    var t := Step(s, e);
    forall w | w in t.workers
      ensures WorkerHonest(t, w)
    {
      StepWorkers(s, e, w);
      assert WorkerHonest(s, w);
    }
  }

  /** The records only grow, and only a worker that wrote its document reports a success. */
  lemma StepGrows(s: State, e: Event)
    ensures s.asked <= Step(s, e).asked && s.saved <= Step(s, e).saved && s.answers <= Step(s, e).answers
    ensures forall k :: |s.answers| <= k < |Step(s, e).answers| && Step(s, e).answers[k].reply == Saved ==>
      e.WorkerDone? && e.worker in s.workers && Step(s, e).answers[k].request == e.worker.request
      && Step(s, e).saved == s.saved + [e.worker]
  {
  }

  lemma StepSavedHonest(s: State, t: State, e: Event)
    requires WorkersHonest(s) && SavedHonest(s) && t == Step(s, e)
    ensures SavedHonest(t)
  {
    StepGrows(s, e);
    forall k | 0 <= k < |t.answers| && t.answers[k].reply == Saved
      ensures Written(t, t.answers[k].request)
    {
      if k < |s.answers| {
        WrittenStays(s, t, s.answers[k].request);
      } else {
        assert t.saved[|s.saved|] == e.worker && WorkerHonest(s, e.worker);
      }
    }
  }

  lemma WrittenStays(s: State, t: State, r: nat)
    requires Written(s, r) && s.asked <= t.asked && s.saved <= t.saved
    ensures Written(t, r)
  {
    var i :| 0 <= i < |s.saved| && s.saved[i] == Worker(r, s.asked[r]);
    assert t.saved[i] == s.saved[i] && t.asked[r] == s.asked[r];
  }

  /** Main result 1: in every run each request was answered exactly once, except the one that is
      pending, which was not answered; a reported success was written with the bytes of that
      very request; and once the bridge has been disposed nothing is pending. */
  lemma {:induction false} EveryRequestIsAnsweredOnce(events: seq<Event>)
    ensures Settled(Run(events)) && Honest(Run(events))
    ensures Dispose in events ==>
      !Run(events).open && forall r: nat :: r < |Run(events).asked| ==> TimesAnswered(Run(events).answers, r) == 1
  {
    DisposedStaysIdle(events);
    var s := Run(events);
    if events != [] {
      EveryRequestIsAnsweredOnce(events[..|events| - 1]);
      StepSettled(Run(events[..|events| - 1]), events[|events| - 1]);
      StepPendingHonest(Run(events[..|events| - 1]), events[|events| - 1]);
      StepWorkersHonest(Run(events[..|events| - 1]), events[|events| - 1]);
      StepSavedHonest(Run(events[..|events| - 1]), s, events[|events| - 1]);
    }
    forall r: nat | r < |s.asked| && Dispose in events
      ensures TimesAnswered(s.answers, r) == 1
    {
      assert SettledFor(s, r);
    }
  }

  lemma {:induction false} DisposedStaysIdle(events: seq<Event>)
    ensures Dispose in events ==> !Run(events).open && Run(events).pending.None?
  {
    if events != [] {
      assert events == events[..|events| - 1] + [events[|events| - 1]];
      DisposedStaysIdle(events[..|events| - 1]);
    }
  }

  // ---- Why a request is answered, and how ----

  /** In this state the event gives this answer to this request. */
  ghost predicate Causes(s: State, e: Event, r: nat, reply: Reply) {
    match reply
    case NotImplemented => IsRequest(s, e, r) && !e.saveJson
    case Busy => IsRequest(s, e, r) && e.saveJson && s.pending.Some?
    case Invalid => IsRequest(s, e, r) && e.saveJson && s.pending.None? && !e.valid
    case PickerFailed => IsRequest(s, e, r) && e.saveJson && s.pending.None? && e.valid && !e.pickerOpens
    case Cancelled => e.PickerResult? && e.ours && !e.chosen && s.pending == Some(r)
    case Saved => e.WorkerDone? && e.worker in s.workers && e.worker.request == r && s.pending == Some(r) && e.wrote
    case WriteFailed =>
      e.WorkerDone? && e.worker in s.workers && e.worker.request == r && s.pending == Some(r) && !e.wrote
    case Interrupted => e.Dispose? && s.pending == Some(r)
  }

  ghost predicate IsRequest(s: State, e: Event, r: nat) {
    e.Call? && s.open && r == |s.asked|
  }

  /** The request was taken up and waits for the picker. */
  ghost predicate Accepts(s: State, e: Event, r: nat) {
    IsRequest(s, e, r) && e.saveJson && s.pending.None? && e.valid && e.pickerOpens
  }

  /** The one answer that a step adds, if any. */
  function NewAnswer(s: State, e: Event): Option<Answer<Reply>> {
    var t := Step(s, e);
    if |t.answers| > |s.answers| then Some(t.answers[|t.answers| - 1]) else None
  }

  lemma StepAdds(s: State, e: Event)
    ensures Step(s, e).answers == s.answers + if NewAnswer(s, e).Some? then [NewAnswer(s, e).value] else []
  {
    assert s.answers + [] == s.answers;
  }

  lemma CausedIsAdded(s: State, e: Event, a: Answer<Reply>)
    requires PendingHonest(s)
    ensures Causes(s, e, a.request, a.reply) <==> NewAnswer(s, e) == Some(a)
  {
    match e
    case Call(_, _, _, _) => CallIsAnswered(s, e, a);
    case PickerResult(_, _) => CancelIsAnswered(s, e, a);
    case WorkerDone(_, _) => ReportIsAnswered(s, e, a);
    case Dispose =>
  }

  lemma CallIsAnswered(s: State, e: Event, a: Answer<Reply>)
    requires e.Call?
    ensures Causes(s, e, a.request, a.reply) <==> NewAnswer(s, e) == Some(a)
  {
  }

  lemma CancelIsAnswered(s: State, e: Event, a: Answer<Reply>)
    requires PendingHonest(s) && e.PickerResult?
    ensures Causes(s, e, a.request, a.reply) <==> NewAnswer(s, e) == Some(a)
  {
  }

  lemma ReportIsAnswered(s: State, e: Event, a: Answer<Reply>)
    requires e.WorkerDone?
    ensures Causes(s, e, a.request, a.reply) <==> NewAnswer(s, e) == Some(a)
  {
  }

  lemma StepAnswers(s: State, e: Event, a: Answer<Reply>)
    requires PendingHonest(s)
    ensures a in Step(s, e).answers <==> a in s.answers || Causes(s, e, a.request, a.reply)
  {
    StepAdds(s, e);
    CausedIsAdded(s, e, a);
  }

  ghost predicate Caused(events: seq<Event>, a: Answer<Reply>) {
    exists k :: 0 <= k < |events| && Causes(Run(events[..k]), events[k], a.request, a.reply)
  }

  lemma CausedOneMore(before: seq<Event>, e: Event, a: Answer<Reply>)
    ensures Caused(before + [e], a) <==> Caused(before, a) || Causes(Run(before), e, a.request, a.reply)
  {
    var all, n := before + [e], |before|;
    assert all[..n] == before && all[n] == e;
    forall k | 0 <= k < n
      ensures all[..k] == before[..k] && all[k] == before[k]
    {
    }
  }

  /** Main result 2: in every run an answer was given exactly if there was a cause for it: each kind of call that is
      turned down, a picker left without a document, a worker's report on the pending request, or disposal. */
  lemma {:induction false} AnswersHaveCauses(events: seq<Event>, a: Answer<Reply>)
    ensures a in Run(events).answers <==> Caused(events, a)
  {
    if events != [] {
      var before, e := events[..|events| - 1], events[|events| - 1];
      assert events == before + [e];
      AnswersHaveCauses(before, a);
      EveryRequestIsAnsweredOnce(before);
      StepAnswers(Run(before), e, a);
      CausedOneMore(before, e, a);
    }
  }

  ghost predicate NoCause(s: State, e: Event, r: nat) {
    forall reply :: !Causes(s, e, r, reply)
  }

  /** A request is pending exactly if it was taken up and nothing has happened since that answers it. */
  lemma {:induction false} PendingExactly(events: seq<Event>, r: nat)
    ensures Run(events).pending == Some(r) <==> WaitsSince(events, r)
  {
    if events != [] {
      var before, e := events[..|events| - 1], events[|events| - 1];
      assert events == before + [e];
      PendingExactly(before, r);
      EveryRequestIsAnsweredOnce(before);
      PendingStep(Run(before), e, r);
      WaitsOneMore(before, e, r);
    }
  }

  ghost predicate WaitsSince(events: seq<Event>, r: nat) {
    exists k :: 0 <= k < |events| && WaitsFrom(events, k, r)
  }

  ghost predicate WaitsFrom(events: seq<Event>, k: int, r: nat)
    requires 0 <= k < |events|
  {
    Accepts(Run(events[..k]), events[k], r) && forall l :: k < l < |events| ==> NoCause(Run(events[..l]), events[l], r)
  }

  lemma PendingStep(s: State, e: Event, r: nat)
    requires PendingHonest(s)
    ensures Step(s, e).pending == Some(r) <==> Accepts(s, e, r) || (s.pending == Some(r) && NoCause(s, e, r))
  {
    if s.pending == Some(r) {
      PendingStays(s, e, r);
    }
  }

  /** The pending request stays pending exactly if the event gives no answer to it. */
  lemma PendingStays(s: State, e: Event, r: nat)
    requires PendingHonest(s) && s.pending == Some(r)
    ensures Step(s, e).pending == Some(r) <==> NoCause(s, e, r)
  {
    forall reply
      ensures Causes(s, e, r, reply) <==> NewAnswer(s, e) == Some(Answer(r, reply))
    {
      CausedIsAdded(s, e, Answer(r, reply));
    }
    AnsweredIsSettled(s, e, r);
    if NewAnswer(s, e).Some? && NewAnswer(s, e).value.request == r {
      assert Causes(s, e, r, NewAnswer(s, e).value.reply);
    }
  }

  lemma AnsweredIsSettled(s: State, e: Event, r: nat)
    requires PendingHonest(s) && s.pending == Some(r)
    ensures Step(s, e).pending == Some(r) <==> !(NewAnswer(s, e).Some? && NewAnswer(s, e).value.request == r)
  {
  }

  lemma WaitsOneMore(before: seq<Event>, e: Event, r: nat)
    ensures WaitsSince(before + [e], r) <==>
      Accepts(Run(before), e, r) || (WaitsSince(before, r) && NoCause(Run(before), e, r))
  {
    var all, n := before + [e], |before|;
    assert all[..n] == before && all[n] == e;
    forall k | 0 <= k < n
      ensures WaitsFrom(all, k, r) <==> WaitsFrom(before, k, r) && NoCause(Run(before), e, r)
    {
      assert forall l :: 0 <= l < n ==> all[..l] == before[..l] && all[l] == before[l];
    }
    assert WaitsFrom(all, n, r) <==> Accepts(Run(before), e, r);
  }

  /** A document was chosen for the pending request, whose bytes the worker carries. */
  ghost predicate Starts(s: State, e: Event, w: Worker) {
    e.PickerResult? && e.ours && e.chosen && s.pending == Some(w.request)
    && w.request < |s.asked| && w.bytes == s.asked[w.request]
  }

  ghost predicate Ends(s: State, e: Event, w: Worker) {
    e.WorkerDone? && e.worker == w && w in s.workers
  }

  /** Every document chosen for the pending request starts one worker, which works until it reports. */
  lemma WorkersExactly(s: State, e: Event, w: Worker)
    requires PendingHonest(s)
    ensures Step(s, e).workers[w]
         == s.workers[w] + (if Starts(s, e, w) then 1 else 0) - (if Ends(s, e, w) then 1 else 0)
  {
    match e
    case PickerResult(_, _) =>
    case WorkerDone(_, _) =>
    case Call(_, _, _, _) =>
    case Dispose =>
  }

  /** A document counts as saved exactly if its worker reports having written it. */
  lemma SavedExactly(s: State, e: Event)
    ensures Step(s, e).saved
         == s.saved + if e.WorkerDone? && e.worker in s.workers && e.wrote then [e.worker] else []
  {
    assert s.saved + [] == s.saved;
  }

  /** The bytes of the calls that came before the bridge was disposed. */
  function BytesAsked(events: seq<Event>): seq<Bytes> {
    if events == [] || events[0].Dispose? then []
    else (if events[0].Call? then [events[0].bytes] else []) + BytesAsked(events[1..])
  }

  lemma {:induction false} BytesOneMore(before: seq<Event>, e: Event)
    ensures BytesAsked(before + [e]) == BytesAsked(before) + if e.Call? && Dispose !in before then [e.bytes] else []
  {
    if before == [] {
      assert before + [e] == [e] && BytesAsked([e][1..]) == [];
    } else if !before[0].Dispose? {
      assert (before + [e])[1..] == before[1..] + [e];
      assert before == [before[0]] + before[1..];
      BytesOneMore(before[1..], e);
    }
  }

  lemma CallsTaken(s: State, e: Event)
    ensures Step(s, e).open == (s.open && e != Dispose)
    ensures Step(s, e).asked == s.asked + if s.open && e.Call? then [e.bytes] else []
  {
    assert s.asked + [] == s.asked;
  }

  /** Calls are taken until the bridge is disposed, and each keeps its own bytes. */
  lemma {:induction false} OpenUntilDisposed(events: seq<Event>)
    ensures Run(events).open <==> Dispose !in events
    ensures Run(events).asked == BytesAsked(events)
  {
    if events != [] {
      var before, e := events[..|events| - 1], events[|events| - 1];
      assert events == before + [e];
      OpenUntilDisposed(before);
      BytesOneMore(before, e);
      CallsTaken(Run(before), e);
      assert Run(before).asked + [] == Run(before).asked;
    }
  }
}
