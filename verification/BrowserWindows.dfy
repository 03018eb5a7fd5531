/** Several windows, each with a handler of its own, and the one stored focus they share.

    An event reaches one handler.  Every other handler sees at most the stored focus change, as its
    own runs allow for; so what holds of one handler in all its runs holds of each of them here. */
module BrowserWindows {
  import opened Common
  import opened BrowserLifecycle

  datatype World = World(handlers: seq<State>, focus: Option<BrowserId>)

  datatype Delivery = Delivery(handler: nat, event: Event)

  /** A handler with the focus as it is stored now. */
  function View(w: World, h: nat): State
    requires h < |w.handlers|
  {
    w.handlers[h].(focused := w.focus)
  }

  /** What the engine promises: identifiers are new to all handlers, and the end of a browser is
      reported to the handler that was told of its start. */
  ghost predicate Deliverable(w: World, d: Delivery) {
    && d.handler < |w.handlers|
    && match d.event
       case Create(_, _, _) => Possible(View(w, d.handler), d.event)
       case AfterCreated(id, popup, context, found) =>
         UnknownToAll(w, id) && IsFirstMatch(View(w, d.handler), context, found)
       case BeforeClose(id) => id in w.handlers[d.handler].seen
       case Elsewhere(_) => false
       case _ => true
  }

  ghost predicate UnknownToAll(w: World, id: BrowserId) {
    forall h :: 0 <= h < |w.handlers| ==> id !in w.handlers[h].seen
  }

  function Deliver(w: World, d: Delivery): World
    requires d.handler < |w.handlers|
    requires d.event.Create? ==> d.event.request.CreateRequest?
    requires d.event.AfterCreated? && d.event.found.Some? ==>
      d.event.found.value in w.handlers[d.handler].pendingCreations
  {
    var t := Step(View(w, d.handler), d.event);
    World(w.handlers[d.handler := t], t.focused)
  }

  // ---- What every delivery keeps ----

  ghost predicate HandlerOk(s: State) {
    Inv(s) && Owned(s) && TexturesTold(s) && Told(s)
  }

  ghost predicate Knows(w: World, h: nat, id: BrowserId) {
    h < |w.handlers| && id in w.handlers[h].seen
  }

  ghost predicate Apart(w: World) {
    forall h: nat, k: nat, id :: Knows(w, h, id) && Knows(w, k, id) ==> h == k
  }

  ghost predicate FocusKnown(w: World) {
    w.focus.Some? ==> exists h: nat :: Knows(w, h, w.focus.value)
  }

  ghost predicate WorldOk(w: World) {
    && (forall h: nat :: h < |w.handlers| ==> HandlerOk(View(w, h)))
    && Apart(w) && FocusKnown(w)
  }

  lemma DeliverableIsPossible(w: World, d: Delivery)
    requires WorldOk(w) && Deliverable(w, d)
    ensures Possible(View(w, d.handler), d.event)
  {
  }

  /** How an event may change the stored focus: to an own browser, or away from one it was told of. */
  lemma FocusChange(s: State, e: Event)
    requires InStep(s) && Possible(s, e) && !e.Elsewhere? && (e.BeforeClose? ==> e.id in s.seen)
    ensures
      var focus := Step(s, e).focused;
      || focus == s.focused
      || (focus.Some? && focus.value in s.browsers)
      || (focus.None? && s.focused.Some? && s.focused.value in s.seen)
  {
  }

  lemma SeenGrows(s: State, e: Event)
    requires Possible(s, e)
    ensures Step(s, e).seen == if e.AfterCreated? then s.seen + {e.id} else s.seen
  {
    match e
    case Create(_, _, _) =>
    case AfterCreated(_, _, _, _) =>
    case Close(_) =>
    case BeforeClose(_) =>
    case SetFocus(_, _) =>
    case NodeFocused(_) =>
    case Elsewhere(_) =>
  }

  lemma EventKeepsHandler(s: State, e: Event)
    requires HandlerOk(s) && Possible(s, e)
    ensures HandlerOk(Step(s, e))
  {
    StepKeeps(s, e);
    StepOwned(s, e);
    StepTextures(s, e);
    StepTold(s, e);
  }

  /** What another handler sees of a delivery. */
  lemma OthersSeeFocus(w: World, d: Delivery, k: nat)
    requires WorldOk(w) && Deliverable(w, d) && k < |w.handlers| && k != d.handler
    ensures
      var w' := Deliver(w, d);
      || View(w', k) == View(w, k)
      || (Possible(View(w, k), Elsewhere(w'.focus)) && View(w', k) == Step(View(w, k), Elsewhere(w'.focus)))
  {
    var s, w' := View(w, d.handler), Deliver(w, d);
    DeliverableIsPossible(w, d);
    assert HandlerOk(s);
    FocusChange(s, d.event);
    SeenGrows(s, d.event);
    forall id | id in s.seen
      ensures id !in w.handlers[k].seen
    {
      assert Knows(w, d.handler, id);
      assert Knows(w, k, id) ==> k == d.handler;
    }
    assert w'.handlers[k] == w.handlers[k];
  }

  lemma HandlerKept(w: World, d: Delivery, k: nat)
    requires WorldOk(w) && Deliverable(w, d) && k < |w.handlers|
    ensures HandlerOk(View(Deliver(w, d), k))
  {
    assert HandlerOk(View(w, k));
    if k == d.handler {
      DeliverableIsPossible(w, d);
      EventKeepsHandler(View(w, k), d.event);
    } else {
      OthersSeeFocus(w, d, k);
      if View(Deliver(w, d), k) != View(w, k) {
        EventKeepsHandler(View(w, k), Elsewhere(Deliver(w, d).focus));
      }
    }
  }

  lemma StaysApart(w: World, d: Delivery)
    requires WorldOk(w) && Deliverable(w, d)
    ensures Apart(Deliver(w, d)) && FocusKnown(Deliver(w, d))
  {
    var s, w' := View(w, d.handler), Deliver(w, d);
    DeliverableIsPossible(w, d);
    assert HandlerOk(s);
    FocusChange(s, d.event);
    SeenGrows(s, d.event);
    forall h: nat, k: nat, id | Knows(w', h, id) && Knows(w', k, id)
      ensures h == k
    {
      if d.event.AfterCreated? && id == d.event.id {
        assert id !in w.handlers[h].seen && id !in w.handlers[k].seen;
      } else {
        assert Knows(w, h, id) && Knows(w, k, id);
      }
    }
    if w'.focus.Some? {
      if w'.focus == w.focus {
        var h: nat :| Knows(w, h, w.focus.value);
        assert Knows(w', h, w.focus.value);
      } else {
        assert Knows(w', d.handler, w'.focus.value);
      }
    }
  }

  lemma DeliveryKeeps(w: World, d: Delivery)
    requires WorldOk(w) && Deliverable(w, d)
    ensures WorldOk(Deliver(w, d))
  {
    forall k: nat | k < |w.handlers|
      ensures HandlerOk(View(Deliver(w, d), k))
    {
      HandlerKept(w, d, k);
    }
    StaysApart(w, d);
  }

  // ---- Runs ----

  ghost predicate DeliverableRun(w: World, run: seq<Delivery>)
    decreases |run|
  {
    run == [] || (Deliverable(w, run[0]) && DeliverableRun(Deliver(w, run[0]), run[1..]))
  }

  ghost function RunAll(w: World, run: seq<Delivery>): World
    requires DeliverableRun(w, run)
    decreases |run|
  {
    if run == [] then w else RunAll(Deliver(w, run[0]), run[1..])
  }

  function Start(n: nat): World {
    World(seq(n, _ => BrowserLifecycle.Initial), None)
  }

  lemma {:induction false} RunAllKeeps(w: World, run: seq<Delivery>)
    requires WorldOk(w) && DeliverableRun(w, run)
    ensures WorldOk(RunAll(w, run)) && |RunAll(w, run).handlers| == |w.handlers|
    decreases |run|
  {
    if run != [] {
      DeliveryKeeps(w, run[0]);
      RunAllKeeps(Deliver(w, run[0]), run[1..]);
    }
  }

  lemma StartIsOk(n: nat)
    ensures WorldOk(Start(n))
  {
    forall h: nat | h < n ensures HandlerOk(View(Start(n), h)) {
      assert View(Start(n), h) == BrowserLifecycle.Initial;
    }
  }

  /** Main result 1: in every run of any number of handlers, each of them answers its requests once, keeps
      its registries in step, has textures for exactly the browsers it opened last, gives the engine exactly the
      orders it should, and keeps for its browsers the allow-lists they were created with. */
  lemma EveryHandlerIsInStep(n: nat, run: seq<Delivery>, h: nat)
    requires DeliverableRun(Start(n), run) && h < n
    ensures |RunAll(Start(n), run).handlers| == n
    ensures
      var s := View(RunAll(Start(n), run), h);
      && InStep(s)
      && (forall r: nat :: r < |s.requests| ==> TimesAnswered(s.answers, r) == if Waiting(s, r) then 0 else 1)
      && (forall id :: id in s.renderers <==> Textured(s, id))
      && LoadsTold(s) && ClosesTold(s) && ListsTold(s)
  {
    StartIsOk(n);
    RunAllKeeps(Start(n), run);
    var s := View(RunAll(Start(n), run), h);
    assert HandlerOk(s);
    forall r: nat | r < |s.requests|
      ensures TimesAnswered(s.answers, r) == if Waiting(s, r) then 0 else 1
    {
      assert Balanced(s, r);
    }
  }

  /** What one handler reports of the stored focus. */
  lemma ReportedFocus(w: World, h: nat)
    requires WorldOk(w) && h < |w.handlers|
    ensures FocusedBrowser(View(w, h))
         == if w.focus.Some? && w.focus.value in w.handlers[h].browsers then w.focus else None
    ensures w.focus.Some? && w.focus.value in w.handlers[h].seen ==> w.focus.value in w.handlers[h].browsers
    ensures w.handlers[h].browsers.Keys <= w.handlers[h].seen
  {
    var s := View(w, h);
    assert HandlerOk(s);
    assert InStep(s);
  }

  lemma OneOwner(w: World, h: nat, k: nat)
    requires WorldOk(w) && h < |w.handlers| && k < |w.handlers| && w.focus.Some?
    requires w.focus.value in w.handlers[h].browsers && w.focus.value in w.handlers[k].browsers
    ensures h == k
  {
    ReportedFocus(w, h);
    ReportedFocus(w, k);
    assert Knows(w, h, w.focus.value) && Knows(w, k, w.focus.value);
  }

  lemma SomeOwner(w: World) returns (k: nat)
    requires WorldOk(w) && w.focus.Some?
    ensures k < |w.handlers| && w.focus.value in w.handlers[k].browsers
  {
    k :| Knows(w, k, w.focus.value);
    ReportedFocus(w, k);
  }

  ghost predicate OwnsAlone(w: World, k: nat, id: BrowserId) {
    && k < |w.handlers| && id in w.handlers[k].browsers
    && forall j: nat :: j < |w.handlers| && id in w.handlers[j].browsers ==> j == k
  }

  /** Main result 2: a handler reports the stored focus exactly when it is nobody's or one of its own browsers,
      and a stored focus always has exactly one such owner. */
  lemma FocusIsReportedByItsOwner(n: nat, run: seq<Delivery>, h: nat)
    requires DeliverableRun(Start(n), run) && h < n
    ensures |RunAll(Start(n), run).handlers| == n
    ensures
      var w := RunAll(Start(n), run);
      FocusedBrowser(View(w, h)) == w.focus <==> (w.focus.Some? ==> w.focus.value in w.handlers[h].browsers)
    ensures
      var w := RunAll(Start(n), run);
      w.focus.Some? ==> exists k: nat :: OwnsAlone(w, k, w.focus.value)
  {
    StartIsOk(n);
    RunAllKeeps(Start(n), run);
    var w := RunAll(Start(n), run);
    ReportedFocus(w, h);
    if w.focus.Some? {
      var k := SomeOwner(w);
      forall j: nat | j < n && w.focus.value in w.handlers[j].browsers ensures j == k {
        OneOwner(w, j, k);
      }
      assert OwnsAlone(w, k, w.focus.value);
    }
  }
}
