/** Creation, closing and focus of the embedded browsers.

    Creating a browser is asynchronous: the caller's reply waits in `pendingCreations` until the
    engine reports a browser whose request context is the same as the recorded one.  Closing is
    asynchronous too: replies queue up per browser id until the engine reports it gone.  All
    registries belong to the engine's UI thread, so a run is any sequence of these events.

    The browser that has the focus is stored once for all handlers.  The state here is that of one
    handler, and other handlers take or drop the stored focus in between; BrowserWindows puts
    several handlers together. */
module BrowserLifecycle {
  import opened Common

  type BrowserId = int

  /** A request context: a wrapper address and the engine's own identity behind it. */
  datatype Context = Context(pointer: nat, identity: nat)

  predicate IsSame(a: Context, b: Context) {
    a.identity == b.identity
  }

  datatype Security = Security(allowedOrigins: set<string>, devtools: bool)

  /** What callers asked for, numbered in order of arrival.  `origins` are the results of
      normalisation, where the empty string stands for an origin that was not accepted. */
  datatype Request =
    | CreateRequest(context: Context, url: string, origins: seq<string>, devtools: bool)
    | CloseRequest(id: BrowserId)

  function SecurityOf(origins: seq<string>, devtools: bool): Security {
    Security(set i | 0 <= i < |origins| && origins[i] != "" :: origins[i], devtools)
  }

  datatype Reply = Rejected | Opened(id: BrowserId) | Closed

  datatype Creation = Creation(url: string, callback: nat)

  datatype Info = Info(wantsFocus: bool)

  /** What the handler asks of the engine. */
  datatype Order = LoadUrl(id: BrowserId, url: string) | ForceClose(id: BrowserId)

  datatype State = State(
    browsers: map<BrowserId, Info>,
    security: map<BrowserId, Security>,
    pendingContexts: map<Context, Security>,
    pendingCreations: map<Context, Creation>,
    closeCallbacks: map<BrowserId, seq<nat>>,
    focused: Option<BrowserId>,
    renderers: set<BrowserId>,
    orders: seq<Order>,
    seen: set<BrowserId>,
    requests: seq<Request>,
    answers: seq<Answer<Reply>>)

  const Initial := State(map[], map[], map[], map[], map[], None, {}, [], {}, [], [])

  /** `found` is the pending context that the search over the unordered registry came to first;
      `Elsewhere` is another handler's change of the stored focus. */
  datatype Event =
    | Create(profileOk: bool, request: Request, accepted: bool)
    | AfterCreated(id: BrowserId, popup: bool, context: Context, found: Option<Context>)
    | Close(id: BrowserId)
    | BeforeClose(id: BrowserId)
    | SetFocus(id: BrowserId, focus: bool)
    | NodeFocused(id: BrowserId)
    | Elsewhere(browser: Option<BrowserId>)

  ghost predicate IsFirstMatch(s: State, context: Context, found: Option<Context>) {
    match found
    case Some(c) => c in s.pendingCreations && IsSame(context, c)
    case None => forall c :: c in s.pendingCreations ==> !IsSame(context, c)
  }

  /** What the engine promises: a new context has an address of its own among the live ones, and browser
      identifiers are not used twice, by whatever handler.  So another handler gives the focus only
      to browsers this one has never heard of, and takes it only from such. */
  ghost predicate Possible(s: State, e: Event) {
    match e
    case Create(_, request, _) =>
      request.CreateRequest? && request.context !in s.pendingCreations && request.context !in s.pendingContexts
    case AfterCreated(id, popup, context, found) =>
      id !in s.seen && s.focused != Some(id) && IsFirstMatch(s, context, found)
    case Elsewhere(focus) =>
      (focus.Some? ==> focus.value !in s.seen) && (focus.None? && s.focused.Some? ==> s.focused.value !in s.seen)
    case _ => true
  }

  function Respond(s: State, r: nat, reply: Reply): State {
    s.(answers := s.answers + [Answer(r, reply)])
  }

  function ClosedAnswers(queue: seq<nat>): seq<Answer<Reply>> {
    seq(|queue|, i requires 0 <= i < |queue| => Answer(queue[i], Closed))
  }

  function ApplyFocus(s: State, id: BrowserId, focus: bool): State {
    if id !in s.browsers then s
    else s.(browsers := s.browsers[id := Info(focus)],
            focused := if focus then Some(id) else if s.focused == Some(id) then None else s.focused)
  }

  function Created(s: State, profileOk: bool, request: Request, accepted: bool): State
    requires request.CreateRequest?
  {
    var r, t := |s.requests|, s.(requests := s.requests + [request]);
    if !profileOk || !accepted then Respond(t, r, Rejected)
    else t.(
           pendingContexts := s.pendingContexts[request.context := SecurityOf(request.origins, request.devtools)],
           pendingCreations := s.pendingCreations[request.context := Creation(request.url, r)])
  }

  function Registered(s: State, id: BrowserId): State {
    s.(seen := s.seen + {id}, browsers := if id in s.browsers then s.browsers else s.browsers[id := Info(false)])
  }

  function HandedOver(s: State, id: BrowserId, c: Context): State
    requires c in s.pendingCreations
  {
    Respond(s.(security := if c in s.pendingContexts then s.security[id := s.pendingContexts[c]] else s.security,
               pendingContexts := s.pendingContexts - {c},
               pendingCreations := s.pendingCreations - {c},
               renderers := s.renderers + {id},
               orders := s.orders + [LoadUrl(id, s.pendingCreations[c].url)]),
            s.pendingCreations[c].callback, Opened(id))
  }

  function CloseAsked(s: State, id: BrowserId): State {
    var r, t := |s.requests|, s.(requests := s.requests + [CloseRequest(id)]);
    if id in s.closeCallbacks then
      t.(closeCallbacks := s.closeCallbacks[id := s.closeCallbacks[id] + [r]])
    else if id in s.browsers then
      ApplyFocus(t.(closeCallbacks := s.closeCallbacks[id := [r]], orders := s.orders + [ForceClose(id)]), id, false)
    else Respond(t.(renderers := s.renderers - {id}), r, Closed)
  }

  function Gone(s: State, id: BrowserId): State {
    var t := s.(security := s.security - {id}, browsers := s.browsers - {id},
                focused := if s.focused == Some(id) then None else s.focused);
    if id !in s.closeCallbacks then t
    else t.(closeCallbacks := s.closeCallbacks - {id}, renderers := s.renderers - {id},
            answers := s.answers + ClosedAnswers(s.closeCallbacks[id]))
  }

  function Step(s: State, e: Event): State
    requires e.Create? ==> e.request.CreateRequest?
    requires e.AfterCreated? && e.found.Some? ==> e.found.value in s.pendingCreations
  {
    match e
    case Create(profileOk, request, accepted) => Created(s, profileOk, request, accepted)
    case AfterCreated(id, popup, context, found) =>
      if popup then s.(seen := s.seen + {id})
      else if found.Some? then HandedOver(Registered(s, id), id, found.value)
      else Registered(s, id).(orders := s.orders + [ForceClose(id)])
    case Close(id) => CloseAsked(s, id)
    case BeforeClose(id) => Gone(s, id)
    case SetFocus(id, focus) => ApplyFocus(s, id, focus)
    case NodeFocused(id) =>
      if id in s.browsers && s.browsers[id].wantsFocus then s.(focused := Some(id)) else s
    case Elsewhere(focus) => s.(focused := focus)
  }

  /** `getFocusedBrowser`: the stored focus, checked against the registry. */
  function FocusedBrowser(s: State): Option<BrowserId> {
    if s.focused.None? then None
    else if s.focused.value !in s.browsers || !s.browsers[s.focused.value].wantsFocus then None
    else s.focused
  }

  /** `isAllowedTopLevelUrl`, where `origin` is the normalised origin of the address. */
  predicate IsAllowed(s: State, id: BrowserId, url: string, origin: string) {
    url == "about:blank" || (id in s.security && origin != "" && origin in s.security[id].allowedOrigins)
  }

  /** The one variable that all handlers share. */
  class SharedFocus {
    var browser: Option<BrowserId>

    constructor ()
      ensures browser == None
    {
      browser := None;
    }
  }

  /** The handler with the registries as fields; the last four record what it asked of
      the engine and what callers asked and were told. */
  class WebviewHandler {
    const shared: SharedFocus
    var browsers: map<BrowserId, Info>
    var security: map<BrowserId, Security>
    var pendingContexts: map<Context, Security>
    var pendingCreations: map<Context, Creation>
    var closeCallbacks: map<BrowserId, seq<nat>>
    var renderers: set<BrowserId>
    var orders: seq<Order>
    var seen: set<BrowserId>
    var requests: seq<Request>
    var answers: seq<Answer<Reply>>

    function Contents(): State
      reads this, shared
    {
      State(browsers, security, pendingContexts, pendingCreations, closeCallbacks, shared.browser, renderers,
            orders, seen, requests, answers)
    }

    constructor (shared: SharedFocus)
      ensures this.shared == shared && Contents() == Initial.(focused := shared.browser)
    {
      this.shared := shared;
      browsers, security, pendingContexts, pendingCreations := map[], map[], map[], map[];
      closeCallbacks, renderers := map[], {};
      orders, seen, requests, answers := [], {}, [], [];
    }

    method CreateBrowser(profileOk: bool, request: Request, accepted: bool)
      requires Possible(Contents(), Create(profileOk, request, accepted))
      modifies this
      ensures Contents() == Step(old(Contents()), Create(profileOk, request, accepted))
    {
      var callback := |requests|;
      requests := requests + [request];
      if !profileOk {
        answers := answers + [Answer(callback, Rejected)];
        return;
      }
      pendingContexts := pendingContexts[request.context := SecurityOf(request.origins, request.devtools)];
      pendingCreations := pendingCreations[request.context := Creation(request.url, callback)];
      if !accepted {
        pendingContexts := pendingContexts - {request.context};
        pendingCreations := pendingCreations - {request.context};
        assert pendingContexts == old(pendingContexts) && pendingCreations == old(pendingCreations);
        answers := answers + [Answer(callback, Rejected)];
      }
    }

    method FindCreation(context: Context) returns (found: Option<Context>)
      ensures IsFirstMatch(Contents(), context, found)
    {
      var todo := pendingCreations.Keys;
      while todo != {}
        invariant todo <= pendingCreations.Keys
        invariant forall c :: c in pendingCreations && c !in todo ==> !IsSame(context, c)
      {
        var c :| c in todo;
        if IsSame(context, c) {
          return Some(c);
        }
        todo := todo - {c};
      }
      return None;
    }

    method OnAfterCreated(id: BrowserId, popup: bool, context: Context) returns (found: Option<Context>)
      requires id !in seen
      modifies this
      ensures IsFirstMatch(old(Contents()), context, found)
      ensures found.Some? ==> found.value.identity == context.identity
      ensures found.None? ==> forall c :: c in old(pendingCreations) ==> c.identity != context.identity
      ensures Contents() == Step(old(Contents()), AfterCreated(id, popup, context, found))
    {
      found := FindCreation(context);
      seen := seen + {id};
      if !popup {
        if id !in browsers {
          browsers := browsers[id := Info(false)];
        }
        if found.None? {
          orders := orders + [ForceClose(id)];
        } else {
          CompleteCreation(id, found.value);
        }
      }
    }

    /** The part of `OnAfterCreated` that hands a browser to the create call it belongs to. */
    method CompleteCreation(id: BrowserId, c: Context)
      requires c in pendingCreations
      modifies this`security, this`pendingContexts, this`pendingCreations, this`renderers, this`answers, this`orders
      ensures security
           == if c in old(pendingContexts) then old(security)[id := old(pendingContexts)[c]] else old(security)
      ensures pendingContexts == old(pendingContexts) - {c} && pendingCreations == old(pendingCreations) - {c}
      ensures renderers == old(renderers) + {id}
      ensures answers == old(answers) + [Answer(old(pendingCreations)[c].callback, Opened(id))]
      ensures orders == old(orders) + [LoadUrl(id, old(pendingCreations)[c].url)]
    {
      if c in pendingContexts {
        security := security[id := pendingContexts[c]];
      }
      pendingContexts := pendingContexts - {c};
      var ready := pendingCreations[c];
      pendingCreations := pendingCreations - {c};
      renderers := renderers + {id};
      answers := answers + [Answer(ready.callback, Opened(id))];
      orders := orders + [LoadUrl(id, ready.url)];
    }

    method SetClientFocus(id: BrowserId, focus: bool)
      modifies this`browsers, shared
      ensures Contents() == Step(old(Contents()), SetFocus(id, focus))
    {
      if id in browsers {
        browsers := browsers[id := Info(focus)];
        if !focus && shared.browser == Some(id) {
          shared.browser := None;
        }
        if focus {
          shared.browser := Some(id);
        }
      }
    }

    method CloseBrowser(id: BrowserId)
      modifies this, shared
      ensures Contents() == Step(old(Contents()), Close(id))
    {
      var onClosed := |requests|;
      requests := requests + [CloseRequest(id)];
      if id in closeCallbacks {
        closeCallbacks := closeCallbacks[id := closeCallbacks[id] + [onClosed]];
      } else if id in browsers {
        closeCallbacks := closeCallbacks[id := [onClosed]];
        SetClientFocus(id, false);
        orders := orders + [ForceClose(id)];
      } else {
        renderers := renderers - {id};
        answers := answers + [Answer(onClosed, Closed)];
      }
    }

    method OnBeforeClose(id: BrowserId)
      requires id in closeCallbacks ==> closeCallbacks[id] != []
      modifies this, shared
      ensures Contents() == Step(old(Contents()), BeforeClose(id))
    {
      security := security - {id};
      browsers := browsers - {id};
      if shared.browser == Some(id) {
        shared.browser := None;
      }
      if id in closeCallbacks {
        var callbacks := closeCallbacks[id];
        closeCallbacks := closeCallbacks - {id};
        RunCloseCallbacks(id, callbacks);
      }
    }

    method RunCloseCallbacks(id: BrowserId, callbacks: seq<nat>)
      modifies this`renderers, this`answers
      ensures answers == old(answers) + ClosedAnswers(callbacks)
      ensures renderers == if callbacks == [] then old(renderers) else old(renderers) - {id}
    {
      for i := 0 to |callbacks|
        invariant answers == old(answers) + ClosedAnswers(callbacks)[..i]
        invariant renderers == if i == 0 then old(renderers) else old(renderers) - {id}
      {
        renderers := renderers - {id};
        answers := answers + [Answer(callbacks[i], Closed)];
      }
    }

    method OnFocusedNode(id: BrowserId)
      modifies shared
      ensures Contents() == Step(old(Contents()), NodeFocused(id))
    {
      if id in browsers && browsers[id].wantsFocus {
        shared.browser := Some(id);
      }
    }

    method GetFocusedBrowser() returns (browser: Option<BrowserId>)
      ensures browser == FocusedBrowser(Contents())
    {
      if shared.browser.None? {
        return None;
      }
      var id := shared.browser.value;
      if id !in browsers || !browsers[id].wantsFocus {
        return None;
      }
      return shared.browser;
    }
  }

  // ---- Registries in step ----

  /** The registries agree, and if the stored focus is one of this handler's browsers, that browser was
      asked to have it. */
  ghost predicate InStep(s: State) {
    && s.pendingContexts.Keys == s.pendingCreations.Keys
    && s.security.Keys <= s.browsers.Keys <= s.seen
    && s.closeCallbacks.Keys <= s.browsers.Keys
    && s.security.Keys <= s.renderers
    && (s.focused.Some? && s.focused.value in s.browsers ==> s.browsers[s.focused.value].wantsFocus)
    && (s.focused.Some? && s.focused.value in s.seen ==> s.focused.value in s.browsers)
  }

  // ---- Who is owed a reply ----

  ghost predicate Increasing(queue: seq<nat>) {
    forall i, j :: 0 <= i < j < |queue| ==> queue[i] < queue[j]
  }

  lemma {:induction false} QueueAnsweredOnce(queue: seq<nat>, r: nat)
    requires Increasing(queue)
    ensures TimesAnswered(ClosedAnswers(queue), r) == if r in queue then 1 else 0
  {
    if queue != [] {
      var rest := queue[..|queue| - 1];
      assert ClosedAnswers(queue)[..|queue| - 1] == ClosedAnswers(rest);
      assert queue == rest + [queue[|queue| - 1]];
      QueueAnsweredOnce(rest, r);
    }
  }

  /** A create waits under its own context; a close waits in the queue of its own browser. */
  ghost predicate Waiting(s: State, r: nat)
    requires r < |s.requests|
  {
    match s.requests[r]
    case CreateRequest(context, _, _, _) =>
      context in s.pendingCreations && s.pendingCreations[context].callback == r
    case CloseRequest(id) => id in s.closeCallbacks && r in s.closeCallbacks[id]
  }

  /** Every request is answered once or waiting, never both. */
  ghost predicate Accounted(s: State) {
    forall r: nat :: Balanced(s, r)
  }

  /** What waits is what was asked for: the recorded creation and its allow-list come from
      one and the same request, and a queue holds close requests for its own browser. */
  ghost predicate WellRecorded(s: State) {
    && (forall c :: c in s.pendingCreations ==> CreationRecorded(s, c))
    && (forall id :: id in s.closeCallbacks ==> QueueRecorded(s, id))
  }

  ghost predicate CreationRecorded(s: State, c: Context)
    requires c in s.pendingCreations
  {
    var r := s.pendingCreations[c].callback;
    && r < |s.requests| && s.requests[r].CreateRequest? && s.requests[r].context == c
    && s.requests[r].url == s.pendingCreations[c].url
    && c in s.pendingContexts
    && s.pendingContexts[c] == SecurityOf(s.requests[r].origins, s.requests[r].devtools)
  }

  ghost predicate QueueRecorded(s: State, id: BrowserId)
    requires id in s.closeCallbacks
  {
    var queue := s.closeCallbacks[id];
    && queue != [] && Increasing(queue)
    && forall i :: 0 <= i < |queue| ==> queue[i] < |s.requests| && s.requests[queue[i]] == CloseRequest(id)
  }

  /** Everything that holds of every reachable state. */
  ghost predicate Inv(s: State) {
    InStep(s) && WellRecorded(s) && Accounted(s)
  }

  lemma MoreRequests(s: State, t: State, c: Context)
    requires c in s.pendingCreations && CreationRecorded(s, c) && s.requests <= t.requests
    requires c in t.pendingCreations && t.pendingCreations[c] == s.pendingCreations[c]
    requires c in t.pendingContexts && t.pendingContexts[c] == s.pendingContexts[c]
    ensures CreationRecorded(t, c)
  {
  }

  /** Records refer only to requests, and requests are never taken back: what is left of
      the registries after a removal stays well recorded. */
  lemma RecordsKept(s: State, t: State)
    requires WellRecorded(s) && s.requests <= t.requests
    requires forall c :: c in t.pendingCreations ==>
      && c in s.pendingCreations && t.pendingCreations[c] == s.pendingCreations[c]
      && c in s.pendingContexts && c in t.pendingContexts && t.pendingContexts[c] == s.pendingContexts[c]
    requires forall id :: id in t.closeCallbacks ==>
      id in s.closeCallbacks && t.closeCallbacks[id] == s.closeCallbacks[id]
    ensures WellRecorded(t)
  {
    forall c | c in t.pendingCreations
      ensures CreationRecorded(t, c)
    {
      MoreRequests(s, t, c);
    }
    forall id | id in t.closeCallbacks
      ensures QueueRecorded(t, id)
    {
      SameQueue(s, t, id);
    }
  }

  lemma CreatedKeeps(s: State, profileOk: bool, request: Request, accepted: bool)
    requires Inv(s) && Possible(s, Create(profileOk, request, accepted))
    ensures InStep(Created(s, profileOk, request, accepted))
    ensures WellRecorded(Created(s, profileOk, request, accepted))
  {
    var t := Created(s, profileOk, request, accepted);
    forall c | c in t.pendingCreations
      ensures CreationRecorded(t, c)
    {
      if c in s.pendingCreations {
        MoreRequests(s, t, c);
      }
    }
    forall id | id in t.closeCallbacks
      ensures QueueRecorded(t, id)
    {
      SameQueue(s, t, id);
    }
  }

  lemma HandedOverInStep(s: State, id: BrowserId, c: Context)
    requires InStep(s) && id !in s.seen && s.focused != Some(id) && c in s.pendingCreations
    ensures InStep(HandedOver(Registered(s, id), id, c))
  {
  }

  lemma HandedOverKeeps(s: State, id: BrowserId, c: Context)
    requires InStep(s) && WellRecorded(s) && id !in s.seen && s.focused != Some(id) && c in s.pendingCreations
    ensures InStep(HandedOver(Registered(s, id), id, c))
    ensures WellRecorded(HandedOver(Registered(s, id), id, c))
  {
    HandedOverInStep(s, id, c);
    RecordsKept(s, HandedOver(Registered(s, id), id, c));
  }

  lemma RegisteredKeeps(s: State, id: BrowserId)
    requires InStep(s) && WellRecorded(s) && id !in s.seen && s.focused != Some(id)
    ensures InStep(Registered(s, id)) && WellRecorded(Registered(s, id))
  {
    RecordsKept(s, Registered(s, id));
  }

  lemma CloseAskedInStep(s: State, id: BrowserId)
    requires InStep(s)
    ensures InStep(CloseAsked(s, id))
  {
  }

  function Queue(s: State, id: BrowserId): seq<nat> {
    if id in s.closeCallbacks then s.closeCallbacks[id] else []
  }

  /** The close request joined the queue of its browser ... */
  ghost predicate Queued(s: State, t: State, id: BrowserId) {
    && t.requests == s.requests + [CloseRequest(id)]
    && t.pendingContexts == s.pendingContexts && t.pendingCreations == s.pendingCreations
    && t.closeCallbacks == s.closeCallbacks[id := Queue(s, id) + [|s.requests|]]
    && t.answers == s.answers
  }

  /** ... or was answered on the spot, because there was no such browser. */
  ghost predicate AnsweredAtOnce(s: State, t: State, id: BrowserId) {
    && t.requests == s.requests + [CloseRequest(id)]
    && t.pendingContexts == s.pendingContexts && t.pendingCreations == s.pendingCreations
    && t.closeCallbacks == s.closeCallbacks && id !in s.closeCallbacks
    && t.answers == s.answers + [Answer(|s.requests|, Closed)]
  }

  lemma CloseAskedEither(s: State, id: BrowserId)
    ensures
      if id in s.closeCallbacks || id in s.browsers then Queued(s, CloseAsked(s, id), id)
      else AnsweredAtOnce(s, CloseAsked(s, id), id)
  {
    assert [] + [|s.requests|] == [|s.requests|];
  }

  lemma SameQueue(s: State, t: State, id: BrowserId)
    requires s.requests <= t.requests && id in s.closeCallbacks && QueueRecorded(s, id)
    requires id in t.closeCallbacks && t.closeCallbacks[id] == s.closeCallbacks[id]
    ensures QueueRecorded(t, id)
  {
  }

  lemma QueuedKeeps(s: State, t: State, id: BrowserId)
    requires InStep(s) && WellRecorded(s) && Queued(s, t, id)
    ensures WellRecorded(t)
  {
    forall c | c in t.pendingCreations
      ensures CreationRecorded(t, c)
    {
      MoreRequests(s, t, c);
    }
    forall other | other in t.closeCallbacks
      ensures QueueRecorded(t, other)
    {
      if other != id {
        SameQueue(s, t, other);
      } else if id in s.closeCallbacks {
        assert QueueRecorded(s, id);
      }
    }
  }

  lemma CloseAskedKeeps(s: State, id: BrowserId)
    requires InStep(s) && WellRecorded(s)
    ensures InStep(CloseAsked(s, id)) && WellRecorded(CloseAsked(s, id))
  {
    CloseAskedInStep(s, id);
    CloseAskedEither(s, id);
    var t := CloseAsked(s, id);
    if Queued(s, t, id) {
      QueuedKeeps(s, t, id);
    } else {
      RecordsKept(s, t);
    }
  }

  lemma GoneInStep(s: State, id: BrowserId)
    requires InStep(s)
    ensures InStep(Gone(s, id))
  {
  }

  lemma GoneKeeps(s: State, id: BrowserId)
    requires InStep(s) && WellRecorded(s)
    ensures InStep(Gone(s, id)) && WellRecorded(Gone(s, id))
  {
    GoneInStep(s, id);
    RecordsKept(s, Gone(s, id));
  }

  lemma FocusKeeps(s: State, id: BrowserId, focus: bool)
    requires InStep(s) && WellRecorded(s)
    ensures InStep(ApplyFocus(s, id, focus)) && WellRecorded(ApplyFocus(s, id, focus))
  {
    RecordsKept(s, ApplyFocus(s, id, focus));
  }

  ghost predicate Balanced(s: State, r: nat) {
    TimesAnswered(s.answers, r) == if r < |s.requests| && !Waiting(s, r) then 1 else 0
  }

  lemma CreatedBalances(s: State, profileOk: bool, request: Request, accepted: bool, r: nat)
    requires Inv(s) && Possible(s, Create(profileOk, request, accepted))
    ensures Balanced(Created(s, profileOk, request, accepted), r)
  {
    var t := Created(s, profileOk, request, accepted);
    assert Balanced(s, r);
    TimesAnsweredSum(s.answers, [Answer(|s.requests|, Rejected)], r);
    if r < |s.requests| {
      assert t.requests[r] == s.requests[r];
      assert Waiting(t, r) == Waiting(s, r);
    }
  }

  lemma HandedOverBalances(s: State, id: BrowserId, c: Context, r: nat)
    requires Inv(s) && id !in s.seen && c in s.pendingCreations
    ensures Balanced(HandedOver(Registered(s, id), id, c), r)
  {
    assert Balanced(s, r) && CreationRecorded(s, c);
    TimesAnsweredSum(s.answers, [Answer(s.pendingCreations[c].callback, Opened(id))], r);
  }

  lemma QueuedBalances(s: State, t: State, id: BrowserId, r: nat)
    requires Balanced(s, r) && Queued(s, t, id)
    ensures Balanced(t, r)
  {
    if r < |s.requests| {
      assert t.requests[r] == s.requests[r];
      assert Waiting(t, r) == Waiting(s, r);
    } else if r == |s.requests| {
      assert t.requests[r] == CloseRequest(id);
      assert t.closeCallbacks[id] == Queue(s, id) + [r];
      assert Waiting(t, r);
    }
  }

  lemma AnsweredAtOnceBalances(s: State, t: State, id: BrowserId, r: nat)
    requires Balanced(s, r) && AnsweredAtOnce(s, t, id)
    ensures Balanced(t, r)
  {
    TimesAnsweredSum(s.answers, [Answer(|s.requests|, Closed)], r);
    if r < |s.requests| {
      assert t.requests[r] == s.requests[r];
      assert Waiting(t, r) == Waiting(s, r);
    } else if r == |s.requests| {
      assert !Waiting(t, r);
    }
  }

  lemma CloseAskedBalances(s: State, id: BrowserId, r: nat)
    requires Accounted(s)
    ensures Balanced(CloseAsked(s, id), r)
  {
    assert Balanced(s, r);
    CloseAskedEither(s, id);
    if Queued(s, CloseAsked(s, id), id) {
      QueuedBalances(s, CloseAsked(s, id), id, r);
    } else {
      AnsweredAtOnceBalances(s, CloseAsked(s, id), id, r);
    }
  }

  lemma GoneBalances(s: State, id: BrowserId, r: nat)
    requires Inv(s)
    ensures Balanced(Gone(s, id), r)
  {
    assert Balanced(s, r);
    if id in s.closeCallbacks {
      assert QueueRecorded(s, id);
      TimesAnsweredSum(s.answers, ClosedAnswers(s.closeCallbacks[id]), r);
      QueueAnsweredOnce(s.closeCallbacks[id], r);
    }
  }

  lemma SameRecordsBalance(s: State, t: State, r: nat)
    requires Balanced(s, r) && t.answers == s.answers && t.requests == s.requests
    requires t.pendingCreations == s.pendingCreations && t.closeCallbacks == s.closeCallbacks
    ensures Balanced(t, r)
  {
    assert r < |s.requests| ==> Waiting(t, r) == Waiting(s, r);
  }

  lemma StepBalances(s: State, e: Event, r: nat)
    requires Inv(s) && Possible(s, e)
    ensures Balanced(Step(s, e), r)
  {
    assert Balanced(s, r);
    match e
    case Create(profileOk, request, accepted) => CreatedBalances(s, profileOk, request, accepted, r);
    case AfterCreated(id, popup, context, found) =>
      if !popup && found.Some? {
        HandedOverBalances(s, id, found.value, r);
      } else {
        SameRecordsBalance(s, Step(s, e), r);
      }
    case Close(id) => CloseAskedBalances(s, id, r);
    case BeforeClose(id) => GoneBalances(s, id, r);
    case _ => SameRecordsBalance(s, Step(s, e), r);
  }

  lemma StepKeeps(s: State, e: Event)
    requires Inv(s) && Possible(s, e)
    ensures Inv(Step(s, e))
  {
    var t := Step(s, e);
    forall r: nat
      ensures Balanced(t, r)
    {
      StepBalances(s, e, r);
    }
    assert Accounted(t);
    match e
    case Create(profileOk, request, accepted) => CreatedKeeps(s, profileOk, request, accepted);
    case AfterCreated(id, popup, context, found) =>
      RegisteredKeeps(s, id);
      if found.Some? {
        HandedOverKeeps(s, id, found.value);
      }
    case Close(id) => CloseAskedKeeps(s, id);
    case BeforeClose(id) => GoneKeeps(s, id);
    case SetFocus(id, focus) => FocusKeeps(s, id, focus);
    case NodeFocused(id) => FocusKeeps(s, id, true);
    case Elsewhere(focus) => RecordsKept(s, t);
  }

  // ---- Main results over runs ----

  ghost predicate PossibleRun(s: State, events: seq<Event>)
    decreases |events|
  {
    events == [] || (Possible(s, events[0]) && PossibleRun(Step(s, events[0]), events[1..]))
  }

  ghost function Run(s: State, events: seq<Event>): State
    requires PossibleRun(s, events)
    decreases |events|
  {
    if events == [] then s else Run(Step(s, events[0]), events[1..])
  }

  lemma {:induction false} RunKeeps(s: State, events: seq<Event>)
    requires Inv(s) && Owned(s) && PossibleRun(s, events)
    ensures Inv(Run(s, events)) && Owned(Run(s, events))
    decreases |events|
  {
    if events != [] {
      StepKeeps(s, events[0]);
      StepOwned(s, events[0]);
      RunKeeps(Step(s, events[0]), events[1..]);
    }
  }

  /** Main result 1: in every run, every create and every close request has been answered exactly
      once or is waiting in its registry and has not been answered; and the registries agree. */
  lemma EveryRequestAnsweredOrWaiting(events: seq<Event>)
    requires PossibleRun(Initial, events)
    ensures
      var s := Run(Initial, events);
      && InStep(s)
      && forall r: nat :: r < |s.requests| ==>
           TimesAnswered(s.answers, r) == if Waiting(s, r) then 0 else 1
  {
    RunKeeps(Initial, events);
    var s := Run(Initial, events);
    forall r: nat | r < |s.requests|
      ensures TimesAnswered(s.answers, r) == if Waiting(s, r) then 0 else 1
    {
      assert Balanced(s, r);
    }
  }

  /** Main result 2: a handler reports the stored focus as its own exactly when it is one of its browsers,
      or nobody's; otherwise it reports none. */
  lemma FocusReportedExactly(events: seq<Event>)
    requires PossibleRun(Initial, events)
    ensures
      var s := Run(Initial, events);
      && (FocusedBrowser(s) == s.focused <==> (s.focused.Some? ==> s.focused.value in s.browsers))
      && (FocusedBrowser(s).Some? <==> s.focused.Some? && s.focused.value in s.browsers)
  {
    RunKeeps(Initial, events);
  }

  /** The create request `r` was answered with this very browser. */
  ghost predicate OpenedFor(s: State, id: BrowserId, r: nat) {
    r < |s.requests| && s.requests[r].CreateRequest? && Answer(r, Opened(id)) in s.answers
  }

  ghost predicate AllowListOf(s: State, id: BrowserId, r: nat) {
    && id in s.security && OpenedFor(s, id, r)
    && s.security[id] == SecurityOf(s.requests[r].origins, s.requests[r].devtools)
  }

  ghost predicate OpenedOnce(s: State) {
    && (forall i :: 0 <= i < |s.answers| && s.answers[i].reply.Opened? ==> s.answers[i].reply.id in s.seen)
    && (forall i, j :: 0 <= i < j < |s.answers| && s.answers[i].reply.Opened? ==>
          s.answers[i].reply != s.answers[j].reply)
  }

  /** Every allow-list belongs to the create call that was told this id, no id was handed out
      twice, and only ids the engine has reported were handed out. */
  ghost predicate Owned(s: State) {
    OpenedOnce(s) && forall id :: id in s.security ==> exists r :: AllowListOf(s, id, r)
  }

  /** The replies one event gives. */
  function NewReplies(s: State, e: Event): seq<Answer<Reply>>
    requires e.AfterCreated? && e.found.Some? ==> e.found.value in s.pendingCreations
  {
    match e
    case Create(profileOk, request, accepted) =>
      if !profileOk || !accepted then [Answer(|s.requests|, Rejected)] else []
    case AfterCreated(id, popup, context, found) =>
      if !popup && found.Some? then [Answer(s.pendingCreations[found.value].callback, Opened(id))] else []
    case Close(id) =>
      if id in s.closeCallbacks || id in s.browsers then [] else [Answer(|s.requests|, Closed)]
    case BeforeClose(id) => ClosedAnswers(Queue(s, id))
    case _ => []
  }

  lemma StepReplies(s: State, e: Event)
    requires Possible(s, e)
    ensures Step(s, e).answers == s.answers + NewReplies(s, e)
    ensures s.requests <= Step(s, e).requests && s.seen <= Step(s, e).seen
  {
    match e
    case Close(id) => CloseAskedEither(s, id);
    case _ =>
  }

  /** What was opened was just reported by the engine, and is the only reply of its event. */
  lemma OpenedReplies(s: State, e: Event, k: nat)
    requires Possible(s, e) && k < |NewReplies(s, e)| && NewReplies(s, e)[k].reply.Opened?
    ensures e.AfterCreated? && !e.popup && NewReplies(s, e)[k].reply == Opened(e.id) && |NewReplies(s, e)| == 1
  {
  }

  lemma OpenedForStays(s: State, e: Event, id: BrowserId, r: nat)
    requires Possible(s, e) && OpenedFor(s, id, r)
    ensures OpenedFor(Step(s, e), id, r) && Step(s, e).requests[r] == s.requests[r]
  {
    StepReplies(s, e);
  }

  /** The allow-list of a browser is fixed until that browser is gone. */
  lemma AllowListIsFixed(s: State, e: Event, id: BrowserId)
    requires InStep(s) && Possible(s, e) && id in s.security && e != BeforeClose(id)
    ensures id in Step(s, e).security && Step(s, e).security[id] == s.security[id]
  {
    assert id in s.seen;
  }

  lemma StepOpenedOnce(s: State, t: State, e: Event)
    requires Possible(s, e) && t == Step(s, e) && OpenedOnce(s)
    ensures OpenedOnce(t)
  {
    StepReplies(s, e);
    var added := NewReplies(s, e);
    assert t.answers == s.answers + added;
    assert e.AfterCreated? ==> e.id in t.seen && e.id !in s.seen;
    forall i | 0 <= i < |t.answers| && t.answers[i].reply.Opened?
      ensures t.answers[i].reply.id in t.seen
      ensures forall j :: 0 <= j < i ==> t.answers[j].reply != t.answers[i].reply
    {
      if i < |s.answers| {
        assert t.answers[i] == s.answers[i];
        assert forall j :: 0 <= j < i ==> t.answers[j] == s.answers[j];
      } else {
        OpenedReplies(s, e, i - |s.answers|);
        assert forall j :: 0 <= j < i ==> t.answers[j] == s.answers[j];
      }
    }
  }

  lemma StepAllowList(s: State, t: State, e: Event, id: BrowserId)
    requires Inv(s) && Owned(s) && Possible(s, e) && t == Step(s, e) && id in t.security
    ensures exists r :: AllowListOf(t, id, r)
  {
    if id in s.security {
      var r :| AllowListOf(s, id, r);
      OpenedForStays(s, e, id, r);
      AllowListIsFixed(s, e, id);
      assert AllowListOf(t, id, r);
    } else {
      var c := e.found.value;
      assert CreationRecorded(s, c);
      assert t.answers[|s.answers|] == Answer(s.pendingCreations[c].callback, Opened(id));
      assert AllowListOf(t, id, s.pendingCreations[c].callback);
    }
  }

  lemma StepOwned(s: State, e: Event)
    requires Inv(s) && Owned(s) && Possible(s, e)
    ensures Owned(Step(s, e))
  {
    var t := Step(s, e);
    StepOpenedOnce(s, t, e);
    forall id | id in t.security
      ensures exists r :: AllowListOf(t, id, r)
    {
      StepAllowList(s, t, e, id);
    }
  }

  /** Main result 3: a navigation other than to the blank page is let through only for an origin
      that was listed in the one create request whose reply carried this browser's id. */
  lemma NavigationNeedsOwnCreate(events: seq<Event>, id: BrowserId, url: string, origin: string) returns (r: nat)
    requires PossibleRun(Initial, events)
    requires IsAllowed(Run(Initial, events), id, url, origin) && url != "about:blank"
    ensures
      var s := Run(Initial, events);
      && OpenedFor(s, id, r) && origin in s.requests[r].origins && origin != ""
      && id in s.browsers
      && forall q: nat :: OpenedFor(s, id, q) ==> q == r
  {
    RunKeeps(Initial, events);
    var s := Run(Initial, events);
    r :| AllowListOf(s, id, r);
    var k :| 0 <= k < |s.answers| && s.answers[k] == Answer(r, Opened(id));
    forall q: nat | OpenedFor(s, id, q)
      ensures q == r
    {
      var l :| 0 <= l < |s.answers| && s.answers[l] == Answer(q, Opened(id));
      assert k == l;
    }
  }

  /** The close request `r` is for a browser that is no longer registered. */
  ghost predicate AskedBrowserIsGone(t: State, r: nat) {
    r < |t.requests| && t.requests[r].CloseRequest?
    && t.requests[r].id !in t.browsers && t.requests[r].id !in t.security
  }

  lemma ClosedAtOnceIsGone(s: State, id: BrowserId)
    requires InStep(s) && id !in s.browsers
    ensures AskedBrowserIsGone(CloseAsked(s, id), |s.requests|)
  {
  }

  lemma QueuedCloseIsGone(s: State, id: BrowserId, i: nat)
    requires id in s.closeCallbacks && QueueRecorded(s, id) && i < |s.closeCallbacks[id]|
    ensures AskedBrowserIsGone(Gone(s, id), s.closeCallbacks[id][i])
  {
  }

  /** A close reply is either the immediate one for an unknown browser, or a queued one. */
  lemma ClosedReplies(s: State, e: Event, k: nat)
    requires Possible(s, e) && k < |NewReplies(s, e)| && NewReplies(s, e)[k].reply == Closed
    ensures
      || (e.Close? && e.id !in s.browsers && NewReplies(s, e)[k].request == |s.requests|)
      || (e.BeforeClose? && e.id in s.closeCallbacks && k < |s.closeCallbacks[e.id]|
          && NewReplies(s, e)[k].request == s.closeCallbacks[e.id][k])
  {
  }

  /** Main result 4: a close reply is given only when the browser it asked about is no longer
      in the registry. */
  lemma CloseRepliesComeLast(s: State, e: Event, k: nat)
    requires InStep(s) && WellRecorded(s) && Possible(s, e)
    requires k < |NewReplies(s, e)| && NewReplies(s, e)[k].reply == Closed
    ensures Step(s, e).answers == s.answers + NewReplies(s, e)
    ensures AskedBrowserIsGone(Step(s, e), NewReplies(s, e)[k].request)
  {
    StepReplies(s, e);
    ClosedReplies(s, e, k);
    if e.Close? {
      ClosedAtOnceIsGone(s, e.id);
    } else {
      QueuedCloseIsGone(s, e.id, k);
    }
  }

  // ---- Textures ----

  /** The close request `r` for this browser was answered by reply number `k`. */
  ghost predicate ClosedBy(s: State, id: BrowserId, k: nat) {
    && k < |s.answers| && s.answers[k].reply == Closed
    && s.answers[k].request < |s.requests| && s.requests[s.answers[k].request] == CloseRequest(id)
  }

  /** A reply opened this browser, and no later one answered a request to close it. */
  ghost predicate OpenedLast(s: State, id: BrowserId, k: nat) {
    && k < |s.answers| && s.answers[k].reply == Opened(id)
    && forall l: nat :: k < l ==> !ClosedBy(s, id, l)
  }

  ghost predicate Textured(s: State, id: BrowserId) {
    exists k: nat :: OpenedLast(s, id, k)
  }

  /** Textures exist for exactly these browsers, and replies are to requests that were made. */
  ghost predicate TexturesTold(s: State) {
    && (forall id :: id in s.renderers <==> Textured(s, id))
    && (forall k :: 0 <= k < |s.answers| ==> s.answers[k].request < |s.requests|)
  }

  /** Replies that concern other browsers leave a browser as it was. */
  lemma OtherRepliesKeep(s: State, t: State, id: BrowserId)
    requires forall k :: 0 <= k < |s.answers| ==> s.answers[k].request < |s.requests|
    requires s.answers <= t.answers && s.requests <= t.requests
    requires forall k :: |s.answers| <= k < |t.answers| ==> t.answers[k].reply != Opened(id) && !ClosedBy(t, id, k)
    ensures Textured(t, id) <==> Textured(s, id)
  {
    forall k: nat
      ensures OpenedLast(t, id, k) <==> OpenedLast(s, id, k)
    {
      forall l: nat
        ensures ClosedBy(t, id, l) <==> ClosedBy(s, id, l)
      {
        if l < |s.answers| {
          assert t.answers[l] == s.answers[l];
          assert t.requests[s.answers[l].request] == s.requests[s.answers[l].request];
        }
      }
      assert k < |s.answers| ==> t.answers[k] == s.answers[k];
    }
  }

  lemma ClosedIsNotTextured(t: State, id: BrowserId, k: nat)
    requires ClosedBy(t, id, k) && forall l: nat :: k < l < |t.answers| ==> t.answers[l].reply != Opened(id)
    ensures !Textured(t, id)
  {
    forall l: nat ensures !OpenedLast(t, id, l) {
      if k < l {
      } else if l < k {
        assert ClosedBy(t, id, k);
      }
    }
  }

  lemma OpenedNow(s: State, t: State, id: BrowserId, r: nat)
    requires t.answers == s.answers + [Answer(r, Opened(id))] && id in t.renderers
    ensures id in t.renderers <==> Textured(t, id)
  {
    assert OpenedLast(t, id, |s.answers|);
  }

  lemma ClosedNow(s: State, t: State, id: BrowserId, r: nat)
    requires t.answers == s.answers + [Answer(r, Closed)] && r < |t.requests| && t.requests[r] == CloseRequest(id)
    requires id !in t.renderers
    ensures id in t.renderers <==> Textured(t, id)
  {
    assert ClosedBy(t, id, |s.answers|);
    ClosedIsNotTextured(t, id, |s.answers|);
  }

  /** An event whose replies do not concern a browser leaves its texture alone. */
  lemma TextureKept(s: State, t: State, id: BrowserId, more: seq<Answer<Reply>>)
    requires TexturesTold(s) && t.answers == s.answers + more && s.requests <= t.requests
    requires id in t.renderers <==> id in s.renderers
    requires forall k :: 0 <= k < |more| ==> more[k].reply != Opened(id)
    requires forall k :: 0 <= k < |more| && more[k].reply == Closed ==>
      more[k].request < |t.requests| && t.requests[more[k].request] != CloseRequest(id)
    ensures id in t.renderers <==> Textured(t, id)
  {
    assert forall k :: |s.answers| <= k < |t.answers| ==> t.answers[k] == more[k - |s.answers|];
    OtherRepliesKeep(s, t, id);
    assert id in s.renderers <==> Textured(s, id);
  }

  lemma CreateTexture(s: State, profileOk: bool, request: Request, accepted: bool, id: BrowserId)
    requires TexturesTold(s) && request.CreateRequest?
    ensures
      var t := Created(s, profileOk, request, accepted);
      id in t.renderers <==> Textured(t, id)
  {
    TextureKept(s, Created(s, profileOk, request, accepted), id,
                if !profileOk || !accepted then [Answer(|s.requests|, Rejected)] else []);
  }

  lemma RegisteredTexture(s: State, t: State, other: BrowserId, id: BrowserId)
    requires TexturesTold(s) && (t == Registered(s, other).(orders := t.orders) || t == s.(seen := t.seen))
    ensures id in t.renderers <==> Textured(t, id)
  {
    TextureKept(s, t, id, []);
  }

  lemma HandedOverTexture(s: State, other: BrowserId, c: Context, id: BrowserId)
    requires TexturesTold(s) && c in s.pendingCreations
    ensures
      var t := HandedOver(Registered(s, other), other, c);
      id in t.renderers <==> Textured(t, id)
  {
    var t, r := HandedOver(Registered(s, other), other, c), s.pendingCreations[c].callback;
    if other == id {
      OpenedNow(s, t, id, r);
    } else {
      TextureKept(s, t, id, [Answer(r, Opened(other))]);
    }
  }

  lemma CloseTexture(s: State, other: BrowserId, id: BrowserId)
    requires TexturesTold(s)
    ensures
      var t := CloseAsked(s, other);
      id in t.renderers <==> Textured(t, id)
  {
    var t := CloseAsked(s, other);
    CloseAskedEither(s, other);
    if Queued(s, t, other) {
      TextureKept(s, t, id, []);
    } else if other == id {
      ClosedNow(s, t, id, |s.requests|);
    } else {
      TextureKept(s, t, id, [Answer(|s.requests|, Closed)]);
    }
  }

  lemma TextureStep(s: State, t: State, e: Event, id: BrowserId)
    requires WellRecorded(s) && Possible(s, e) && t == Step(s, e) && TexturesTold(s)
    ensures id in t.renderers <==> Textured(t, id)
  {
    match e
    case Create(profileOk, request, accepted) => CreateTexture(s, profileOk, request, accepted, id);
    case AfterCreated(other, popup, context, found) =>
      if !popup && found.Some? {
        HandedOverTexture(s, other, found.value, id);
      } else {
        RegisteredTexture(s, t, other, id);
      }
    case Close(other) => CloseTexture(s, other, id);
    case BeforeClose(other) => GoneTextures(s, t, other, id);
    case _ => TextureKept(s, t, id, []);
  }

  lemma GoneTextures(s: State, t: State, other: BrowserId, id: BrowserId)
    requires WellRecorded(s) && t == Gone(s, other) && TexturesTold(s)
    ensures id in t.renderers <==> Textured(t, id)
  {
    var more := ClosedAnswers(Queue(s, other));
    if other in s.closeCallbacks {
      assert QueueRecorded(s, other);
      if other == id {
        assert forall k :: |s.answers| <= k < |t.answers| ==> t.answers[k] == more[k - |s.answers|];
        assert ClosedBy(t, id, |s.answers|);
        ClosedIsNotTextured(t, id, |s.answers|);
      } else {
        TextureKept(s, t, id, more);
      }
    } else {
      TextureKept(s, t, id, []);
    }
  }

  lemma MoreRepliesAsked(s: State, t: State, more: seq<Answer<Reply>>)
    requires TexturesTold(s) && t.answers == s.answers + more && s.requests <= t.requests
    requires forall k :: 0 <= k < |more| ==> more[k].request < |t.requests|
    ensures forall k :: 0 <= k < |t.answers| ==> t.answers[k].request < |t.requests|
  {
    forall k | 0 <= k < |t.answers|
      ensures t.answers[k].request < |t.requests|
    {
      assert t.answers[k] == if k < |s.answers| then s.answers[k] else more[k - |s.answers|];
    }
  }

  lemma RepliesAreAsked(s: State, e: Event)
    requires WellRecorded(s) && Possible(s, e) && TexturesTold(s)
    ensures forall k :: 0 <= k < |Step(s, e).answers| ==> Step(s, e).answers[k].request < |Step(s, e).requests|
  {
    StepReplies(s, e);
    forall k | 0 <= k < |NewReplies(s, e)|
      ensures NewReplies(s, e)[k].request < |Step(s, e).requests|
    {
      NewReplyIsAsked(s, e, k);
    }
    MoreRepliesAsked(s, Step(s, e), NewReplies(s, e));
  }

  lemma NewReplyIsAsked(s: State, e: Event, k: nat)
    requires WellRecorded(s) && Possible(s, e) && k < |NewReplies(s, e)|
    ensures NewReplies(s, e)[k].request < |Step(s, e).requests|
  {
    match e
    case AfterCreated(id, popup, context, found) => assert CreationRecorded(s, found.value);
    case BeforeClose(id) => assert QueueRecorded(s, id);
    case _ =>
  }

  lemma StepTextures(s: State, e: Event)
    requires InStep(s) && WellRecorded(s) && Possible(s, e) && TexturesTold(s)
    ensures TexturesTold(Step(s, e))
  {
    forall id ensures id in Step(s, e).renderers <==> Textured(Step(s, e), id) {
      TextureStep(s, Step(s, e), e, id);
    }
    RepliesAreAsked(s, e);
  }

  lemma {:induction false} RunTextures(s: State, events: seq<Event>)
    requires Inv(s) && PossibleRun(s, events) && TexturesTold(s)
    ensures TexturesTold(Run(s, events))
    decreases |events|
  {
    if events != [] {
      StepKeeps(s, events[0]);
      StepTextures(s, events[0]);
      RunTextures(Step(s, events[0]), events[1..]);
    }
  }

  /** Main result 5: in every run the textures are those of exactly the browsers that a create call was told
      of and that no later reply confirmed as closed. */
  lemma TexturesExactly(events: seq<Event>)
    requires PossibleRun(Initial, events)
    ensures forall id :: id in Run(Initial, events).renderers <==> Textured(Run(Initial, events), id)
  {
    RunTextures(Initial, events);
  }

  /** A texture outlives a browser exactly when nobody had asked for that browser to be closed. */
  lemma RendererOutlivesUnaskedClose(s: State, id: BrowserId)
    ensures id in Step(s, BeforeClose(id)).renderers <==> id in s.renderers && id !in s.closeCallbacks
  {
  }

  /** So a browser that is created and goes away by itself leaves its texture behind. */
  lemma UnaskedCloseLeavesTexture(request: Request, id: BrowserId)
    requires request.CreateRequest?
    ensures
      var context := request.context;
      var events := [Create(true, request, true), AfterCreated(id, false, context, Some(context)), BeforeClose(id)];
      PossibleRun(Initial, events)
      && id in Run(Initial, events).renderers && id !in Run(Initial, events).browsers
  {
    var context := request.context;
    var create, created := Create(true, request, true), AfterCreated(id, false, context, Some(context));
    var s1 := Step(Initial, create);
    var s2 := Step(s1, created);
    assert context in s1.pendingCreations && Possible(s1, created);
    assert id in s2.renderers && id !in s2.closeCallbacks;
    ThreeSteps(Initial, create, created, BeforeClose(id));
    RendererOutlivesUnaskedClose(s2, id);
  }

  lemma StepThenRun(s: State, e: Event, rest: seq<Event>)
    requires Possible(s, e) && PossibleRun(Step(s, e), rest)
    ensures PossibleRun(s, [e] + rest) && Run(s, [e] + rest) == Run(Step(s, e), rest)
  {
    assert ([e] + rest)[1..] == rest;
  }

  lemma ThreeSteps(s: State, a: Event, b: Event, c: Event)
    requires Possible(s, a) && Possible(Step(s, a), b) && Possible(Step(Step(s, a), b), c)
    ensures PossibleRun(s, [a, b, c]) && Run(s, [a, b, c]) == Step(Step(Step(s, a), b), c)
  {
    StepThenRun(Step(Step(s, a), b), c, []);
    StepThenRun(Step(s, a), b, [c] + []);
    StepThenRun(s, a, [b] + ([c] + []));
    assert [a] + ([b] + ([c] + [])) == [a, b, c];
  }

  // ---- What the engine is asked, and what a browser may open ----

  /** The event tells the create request `r` that its browser is this one. */
  ghost predicate Opens(s: State, e: Event, id: BrowserId, r: nat) {
    && e.AfterCreated? && !e.popup && e.id == id && e.found.Some?
    && e.found.value in s.pendingCreations && s.pendingCreations[e.found.value].callback == r
  }

  lemma OpenedForStep(s: State, e: Event, id: BrowserId, r: nat)
    requires WellRecorded(s) && Possible(s, e) && TexturesTold(s)
    ensures OpenedFor(Step(s, e), id, r) <==> OpenedFor(s, id, r) || Opens(s, e, id, r)
    ensures r < |s.requests| ==> Step(s, e).requests[r] == s.requests[r]
  {
    var t, more := Step(s, e), NewReplies(s, e);
    StepReplies(s, e);
    assert Answer(r, Opened(id)) in s.answers ==> r < |s.requests|;
    if Opens(s, e, id, r) {
      assert CreationRecorded(s, e.found.value);
      assert more[0] == Answer(r, Opened(id));
    } else {
      forall k | 0 <= k < |more|
        ensures more[k] != Answer(r, Opened(id))
      {
        if more[k].reply.Opened? {
          OpenedReplies(s, e, k);
        }
      }
    }
  }

  /** Some create request was told of this browser. */
  ghost predicate ToldOf(s: State, id: BrowserId) {
    exists r :: OpenedFor(s, id, r)
  }

  /** Some create request for this address was told of this browser. */
  ghost predicate Asks(s: State, id: BrowserId, url: string) {
    exists r: nat :: OpenedFor(s, id, r) && s.requests[r].url == url
  }

  ghost predicate AskedToClose(s: State, id: BrowserId) {
    CloseRequest(id) in s.requests
  }

  /** A browser is sent to an address exactly if a create request for that address was told of it. */
  ghost predicate LoadsTold(s: State) {
    forall id, url :: LoadUrl(id, url) in s.orders <==> Asks(s, id, url)
  }

  /** The engine was asked to close every browser that somebody waits to see closed and every one that no create
      request was told of, and no others than those that somebody asked to close or nobody was told of. */
  ghost predicate ClosesTold(s: State) {
    && (forall id :: id in s.closeCallbacks ==> ForceClose(id) in s.orders)
    && (forall id :: id in s.browsers && !ToldOf(s, id) ==> ForceClose(id) in s.orders)
    && (forall id :: ForceClose(id) in s.orders ==> AskedToClose(s, id) || (id in s.seen && !ToldOf(s, id)))
  }

  /** A registered browser has the allow-list of the create request that was told of it. */
  ghost predicate ListsTold(s: State) {
    forall id, r :: id in s.browsers && OpenedFor(s, id, r) ==> AllowListOf(s, id, r)
  }

  ghost predicate Told(s: State) {
    LoadsTold(s) && ClosesTold(s) && ListsTold(s)
  }

  /** The orders one event gives. */
  function NewOrders(s: State, e: Event): seq<Order>
    requires e.AfterCreated? && e.found.Some? ==> e.found.value in s.pendingCreations
  {
    match e
    case AfterCreated(id, popup, context, found) =>
      if popup then [] else if found.None? then [ForceClose(id)] else [LoadUrl(id, s.pendingCreations[found.value].url)]
    case Close(id) => if id in s.browsers && id !in s.closeCallbacks then [ForceClose(id)] else []
    case _ => []
  }

  lemma StepOrders(s: State, e: Event)
    requires Possible(s, e)
    ensures Step(s, e).orders == s.orders + NewOrders(s, e)
  {
    assert s.orders + [] == s.orders;
  }

  lemma LoadsStep(s: State, e: Event)
    requires WellRecorded(s) && Possible(s, e) && TexturesTold(s) && LoadsTold(s)
    ensures LoadsTold(Step(s, e))
  {
    var t := Step(s, e);
    StepOrders(s, e);
    forall id, url
      ensures LoadUrl(id, url) in t.orders <==> Asks(t, id, url)
    {
      if Asks(s, id, url) {
        var r: nat :| OpenedFor(s, id, r) && s.requests[r].url == url;
        OpenedForStep(s, e, id, r);
      }
      if Asks(t, id, url) {
        var r: nat :| OpenedFor(t, id, r) && t.requests[r].url == url;
        OpenedForStep(s, e, id, r);
        if Opens(s, e, id, r) {
          OpensItsOwn(s, e, id, r);
        }
      }
      if LoadUrl(id, url) in NewOrders(s, e) {
        var r := s.pendingCreations[e.found.value].callback;
        OpenedForStep(s, e, id, r);
        OpensItsOwn(s, e, id, r);
      }
    }
  }

  lemma OpensItsOwn(s: State, e: Event, id: BrowserId, r: nat)
    requires WellRecorded(s) && Possible(s, e) && Opens(s, e, id, r)
    ensures r < |s.requests| && Step(s, e).requests[r] == s.requests[r]
    ensures NewOrders(s, e) == [LoadUrl(id, s.requests[r].url)]
  {
    assert CreationRecorded(s, e.found.value);
  }

  lemma ToldOfStep(s: State, e: Event, id: BrowserId)
    requires WellRecorded(s) && Possible(s, e) && TexturesTold(s)
    ensures ToldOf(Step(s, e), id) <==> ToldOf(s, id) || exists r :: Opens(s, e, id, r)
  {
    forall r: nat
      ensures OpenedFor(Step(s, e), id, r) <==> OpenedFor(s, id, r) || Opens(s, e, id, r)
    {
      OpenedForStep(s, e, id, r);
    }
  }

  lemma OpensOnly(s: State, e: Event, id: BrowserId)
    requires Possible(s, e)
    ensures (exists r :: Opens(s, e, id, r)) <==> e.AfterCreated? && !e.popup && e.id == id && e.found.Some?
  {
    if e.AfterCreated? && !e.popup && e.id == id && e.found.Some? {
      assert Opens(s, e, id, s.pendingCreations[e.found.value].callback);
    }
  }

  lemma ToldWasSeen(s: State, id: BrowserId)
    requires OpenedOnce(s) && ToldOf(s, id)
    ensures id in s.seen
  {
    var r :| OpenedFor(s, id, r);
    var k :| 0 <= k < |s.answers| && s.answers[k] == Answer(r, Opened(id));
  }

  lemma ClosesStep(s: State, e: Event, id: BrowserId)
    requires Inv(s) && Owned(s) && Possible(s, e) && TexturesTold(s) && ClosesTold(s)
    ensures
      var t := Step(s, e);
      && (id in t.closeCallbacks ==> ForceClose(id) in t.orders)
      && (id in t.browsers && !ToldOf(t, id) ==> ForceClose(id) in t.orders)
      && (ForceClose(id) in t.orders ==> AskedToClose(t, id) || (id in t.seen && !ToldOf(t, id)))
  {
    StepOrders(s, e);
    ToldOfStep(s, e, id);
    OpensOnly(s, e, id);
    if ToldOf(s, id) {
      ToldWasSeen(s, id);
    }
    BrowsersStep(s, e, id);
    ClosingStep(s, e, id);
    AskedStep(s, e, id);
  }

  lemma AskedStep(s: State, e: Event, id: BrowserId)
    requires Possible(s, e)
    ensures AskedToClose(s, id) || e == Close(id) ==> AskedToClose(Step(s, e), id)
  {
    StepReplies(s, e);
    ClosingStep(s, e, id);
    if e == Close(id) {
      assert Step(s, e).requests[|s.requests|] == CloseRequest(id);
    }
  }

  /** A browser is registered when the engine reports it, unless it is a popup, and until it is gone. */
  lemma BrowsersStep(s: State, e: Event, id: BrowserId)
    requires Possible(s, e)
    ensures id in Step(s, e).browsers
       <==> (id in s.browsers && e != BeforeClose(id)) || (e.AfterCreated? && !e.popup && e.id == id)
    ensures id in Step(s, e).seen <==> id in s.seen || (e.AfterCreated? && e.id == id)
  {
    match e
    case Create(_, _, _) =>
    case AfterCreated(_, _, _, _) =>
    case Close(_) =>
    case BeforeClose(_) =>
    case SetFocus(_, _) =>
    case NodeFocused(_) =>
    case Elsewhere(_) =>
  }

  lemma ClosingStep(s: State, e: Event, id: BrowserId)
    requires Possible(s, e)
    ensures id in Step(s, e).closeCallbacks
       <==> (if e == Close(id) then id in s.browsers || id in s.closeCallbacks
             else id in s.closeCallbacks && e != BeforeClose(id))
    ensures e.Close? ==> Step(s, e).requests == s.requests + [CloseRequest(e.id)]
  {
    match e
    case Create(_, _, _) =>
    case AfterCreated(_, _, _, _) =>
    case Close(other) => CloseAskedEither(s, other);
    case BeforeClose(_) =>
    case SetFocus(_, _) =>
    case NodeFocused(_) =>
    case Elsewhere(_) =>
  }

  lemma ListsStep(s: State, e: Event, id: BrowserId, r: nat)
    requires Inv(s) && Owned(s) && Possible(s, e) && TexturesTold(s) && ListsTold(s)
    requires id in Step(s, e).browsers && OpenedFor(Step(s, e), id, r)
    ensures AllowListOf(Step(s, e), id, r)
  {
    OpenedForStep(s, e, id, r);
    BrowsersStep(s, e, id);
    if Opens(s, e, id, r) {
      assert CreationRecorded(s, e.found.value);
    } else {
      ToldWasSeen(s, id);
      assert AllowListOf(s, id, r);
      AllowListIsFixed(s, e, id);
    }
  }

  lemma StepTold(s: State, e: Event)
    requires Inv(s) && Owned(s) && Possible(s, e) && TexturesTold(s) && Told(s)
    ensures Told(Step(s, e))
  {
    LoadsStep(s, e);
    forall id {
      ClosesStep(s, e, id);
    }
    forall id, r | id in Step(s, e).browsers && OpenedFor(Step(s, e), id, r)
      ensures AllowListOf(Step(s, e), id, r)
    {
      ListsStep(s, e, id, r);
    }
  }

  lemma {:induction false} RunTold(s: State, events: seq<Event>)
    requires Inv(s) && Owned(s) && TexturesTold(s) && Told(s) && PossibleRun(s, events)
    ensures Told(Run(s, events))
    decreases |events|
  {
    if events != [] {
      StepKeeps(s, events[0]);
      StepOwned(s, events[0]);
      StepTextures(s, events[0]);
      StepTold(s, events[0]);
      RunTold(Step(s, events[0]), events[1..]);
    }
  }

  /** Main result 6: in every run the engine was asked to load an address in a browser exactly if a create request for
      that address was told of that browser; it was asked to close every browser that somebody waits to see
      closed and every one that belongs to no create request, and no others. */
  lemma OrdersExactly(events: seq<Event>)
    requires PossibleRun(Initial, events)
    ensures LoadsTold(Run(Initial, events)) && ClosesTold(Run(Initial, events))
  {
    RunTold(Initial, events);
  }

  /** Main result 7: in every run a navigation is let through exactly if it is to the blank page, or the browser is
      registered and its origin was listed in the create request that was told of this browser. */
  lemma NavigationExactly(events: seq<Event>, id: BrowserId, url: string, origin: string)
    requires PossibleRun(Initial, events)
    ensures
      var s := Run(Initial, events);
      IsAllowed(s, id, url, origin) <==>
        || url == "about:blank"
        || (id in s.browsers && origin != ""
            && exists r: nat :: OpenedFor(s, id, r) && origin in s.requests[r].origins)
  {
    var s := Run(Initial, events);
    RunTold(Initial, events);
    RunKeeps(Initial, events);
    if IsAllowed(s, id, url, origin) && url != "about:blank" {
      var r := NavigationNeedsOwnCreate(events, id, url, origin);
    }
    if r: nat :| id in s.browsers && origin != "" && OpenedFor(s, id, r) && origin in s.requests[r].origins {
      assert AllowListOf(s, id, r);
    }
  }

  /** Developer tools are open to a registered browser exactly if its own create request asked for them. */
  lemma DevtoolsAreOwn(events: seq<Event>, id: BrowserId, r: nat)
    requires PossibleRun(Initial, events)
    requires id in Run(Initial, events).browsers && OpenedFor(Run(Initial, events), id, r)
    ensures
      var s := Run(Initial, events);
      id in s.security && s.security[id].devtools == s.requests[r].devtools
  {
    RunTold(Initial, events);
    assert AllowListOf(Run(Initial, events), id, r);
  }

  // ---- Runs seen from their end ----

  /** The state after the first `k` events of a possible run. */
  ghost function StateAt(events: seq<Event>, k: nat): State
    requires PossibleRun(Initial, events) && k <= |events|
  {
    PrefixPossible(Initial, events, k);
    Run(Initial, events[..k])
  }

  lemma {:induction false} PrefixPossible(s: State, events: seq<Event>, k: nat)
    requires PossibleRun(s, events) && k <= |events|
    ensures PossibleRun(s, events[..k])
    decreases |events|
  {
    if k > 0 {
      assert events[..k][0] == events[0] && events[..k][1..] == events[1..][..k - 1];
      PrefixPossible(Step(s, events[0]), events[1..], k - 1);
    }
  }

  lemma {:induction false} NextStep(s: State, events: seq<Event>, k: nat)
    requires PossibleRun(s, events) && k < |events|
    requires PossibleRun(s, events[..k]) && PossibleRun(s, events[..k + 1])
    ensures Possible(Run(s, events[..k]), events[k])
    ensures Run(s, events[..k + 1]) == Step(Run(s, events[..k]), events[k])
    decreases |events|
  {
    var rest := events[1..];
    assert events[..k + 1][0] == events[0] && events[..k + 1][1..] == rest[..k];
    if k == 0 {
      assert Run(s, events[..0]) == s && rest[..0] == [];
    } else {
      assert events[..k][0] == events[0] && events[..k][1..] == rest[..k - 1];
      NextStep(Step(s, events[0]), rest, k - 1);
    }
  }

  lemma StateAtNext(events: seq<Event>, k: nat)
    requires PossibleRun(Initial, events) && k < |events|
    ensures Possible(StateAt(events, k), events[k])
    ensures StateAt(events, k + 1) == Step(StateAt(events, k), events[k])
    ensures Inv(StateAt(events, k)) && Owned(StateAt(events, k))
  {
    PrefixPossible(Initial, events, k);
    PrefixPossible(Initial, events, k + 1);
    NextStep(Initial, events, k);
    RunKeeps(Initial, events[..k]);
  }

  /** The engine reported this browser, no popup, and has not reported its end since. */
  ghost predicate ReportedSince(events: seq<Event>, n: nat, id: BrowserId)
    requires n <= |events|
  {
    exists k :: 0 <= k < n && Reports(events[k], id) && forall l :: k < l < n ==> events[l] != BeforeClose(id)
  }

  ghost predicate Reports(e: Event, id: BrowserId) {
    e.AfterCreated? && !e.popup && e.id == id
  }

  /** Main result 8: in every run exactly the browsers that the engine has reported and not reported gone
      are registered. */
  lemma {:induction false} BrowsersExactly(events: seq<Event>, n: nat, id: BrowserId)
    requires PossibleRun(Initial, events) && n <= |events|
    ensures id in StateAt(events, n).browsers <==> ReportedSince(events, n, id)
  {
    if n > 0 {
      BrowsersExactly(events, n - 1, id);
      StateAtNext(events, n - 1);
      BrowsersStep(StateAt(events, n - 1), events[n - 1], id);
      assert ReportedSince(events, n, id) <==>
        Reports(events[n - 1], id) || (ReportedSince(events, n - 1, id) && events[n - 1] != BeforeClose(id));
    }
  }

  // ---- Who has the focus ----

  ghost predicate Wants(s: State, id: BrowserId) {
    id in s.browsers && s.browsers[id].wantsFocus
  }

  /** The event gives a browser the wish for focus, or takes it away: a close does when it is the first. */
  ghost predicate GivesWish(s: State, e: Event, id: BrowserId) {
    e == SetFocus(id, true) && id in s.browsers
  }

  ghost predicate EndsWish(s: State, e: Event, id: BrowserId) {
    || e == BeforeClose(id)
    || (id in s.browsers && (e == SetFocus(id, false) || (e == Close(id) && id !in s.closeCallbacks)))
  }

  /** The event stores the focus of this browser, or makes an end of it. */
  ghost predicate GivesFocus(s: State, e: Event, id: BrowserId) {
    GivesWish(s, e, id) || (e == NodeFocused(id) && Wants(s, id)) || e == Elsewhere(Some(id))
  }

  ghost predicate EndsFocus(s: State, e: Event, id: BrowserId) {
    EndsWish(s, e, id) || e.Elsewhere? || exists other :: other != id && GivesFocus(s, e, other)
  }

  lemma WishStep(s: State, e: Event, id: BrowserId)
    requires InStep(s) && Possible(s, e)
    ensures Wants(Step(s, e), id) <==> GivesWish(s, e, id) || (Wants(s, id) && !EndsWish(s, e, id))
  {
    match e
    case Create(_, _, _) =>
    case AfterCreated(_, _, _, _) =>
    case Close(_) =>
    case BeforeClose(_) =>
    case SetFocus(_, _) =>
    case NodeFocused(_) =>
    case Elsewhere(_) =>
  }

  lemma FocusStep(s: State, e: Event, id: BrowserId)
    requires InStep(s) && Possible(s, e)
    ensures Step(s, e).focused == Some(id)
       <==> GivesFocus(s, e, id) || (s.focused == Some(id) && !EndsFocus(s, e, id))
  {
    match e
    case Create(_, _, _) =>
    case AfterCreated(_, _, _, _) =>
    case Close(_) =>
    case BeforeClose(_) =>
    case SetFocus(other, focus) => assert focus && other in s.browsers ==> GivesFocus(s, e, other);
    case NodeFocused(other) => assert Wants(s, other) ==> GivesFocus(s, e, other);
    case Elsewhere(_) =>
  }

  /** At which events of a run something is so for a browser. */
  ghost function Marks(events: seq<Event>, id: BrowserId, so: (State, Event, BrowserId) -> bool): seq<bool>
    requires PossibleRun(Initial, events)
  {
    seq(|events|, k requires 0 <= k < |events| => so(StateAt(events, k), events[k], id))
  }

  ghost predicate WishSince(events: seq<Event>, n: nat, id: BrowserId)
    requires PossibleRun(Initial, events) && n <= |events|
  {
    Since(Marks(events, id, GivesWish), Marks(events, id, EndsWish), n)
  }

  ghost predicate FocusSince(events: seq<Event>, n: nat, id: BrowserId)
    requires PossibleRun(Initial, events) && n <= |events|
  {
    Since(Marks(events, id, GivesFocus), Marks(events, id, EndsFocus), n)
  }

  /** Main result 9: in every run a browser wishes for the focus, and has the stored one, exactly if some event gave
      it and none has made an end of it since.  Only a browser that wishes for it gets it from its page. */
  lemma {:induction false} FocusExactly(events: seq<Event>, n: nat, id: BrowserId)
    requires PossibleRun(Initial, events) && n <= |events|
    ensures Wants(StateAt(events, n), id) <==> WishSince(events, n, id)
    ensures StateAt(events, n).focused == Some(id) <==> FocusSince(events, n, id)
  {
    if n > 0 {
      FocusExactly(events, n - 1, id);
      StateAtNext(events, n - 1);
      WishStep(StateAt(events, n - 1), events[n - 1], id);
      FocusStep(StateAt(events, n - 1), events[n - 1], id);
      SinceOneMore(Marks(events, id, GivesWish), Marks(events, id, EndsWish), n - 1);
      SinceOneMore(Marks(events, id, GivesFocus), Marks(events, id, EndsFocus), n - 1);
    }
  }
}
