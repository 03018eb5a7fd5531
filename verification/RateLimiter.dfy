/** The per-client sliding-window limiter of the deals API.

    The code keeps one queue of admission times per client, drops old times from the
    front of a queue only when that client calls, and once per window sweeps all queues.
    The reference below keeps every admission for ever and counts the recent ones.
    The two give the same answers whenever the times, taken in lock order, never go back; when
    they do go back, the theorems say exactly what is left. */
module RateLimiter {

  type Client = string

  datatype Config = Config(maximum: int, window: real)

  datatype State = State(requests: map<Client, seq<real>>, lastCleanup: real)

  datatype Call = Call(client: Client, now: real)

  const Initial := State(map[], 0.0)

  /** What is left of a queue after taking times off its front while they are too old. */
  function Evict(history: seq<real>, threshold: real): seq<real> {
    if history != [] && history[0] <= threshold then Evict(history[1..], threshold) else history
  }

  function Sweep(requests: map<Client, seq<real>>, threshold: real): map<Client, seq<real>> {
    map k | k in requests && Evict(requests[k], threshold) != [] :: Evict(requests[k], threshold)
  }

  /** A missing key reads as an empty queue, as in the `defaultdict`. */
  function Queue(requests: map<Client, seq<real>>, client: Client): seq<real> {
    if client in requests then requests[client] else []
  }

  /** The sweep of all queues, at most once per window. */
  function Swept(cfg: Config, s: State, now: real): State {
    if now - s.lastCleanup >= cfg.window then State(Sweep(s.requests, now - cfg.window), now) else s
  }

  function Step(cfg: Config, s: State, c: Call): (State, bool) {
    var threshold := c.now - cfg.window;
    var swept := Swept(cfg, s, c.now);
    var queue := Evict(Queue(swept.requests, c.client), threshold);
    if |queue| >= cfg.maximum
    then (swept.(requests := swept.requests[c.client := queue]), false)
    else (swept.(requests := swept.requests[c.client := queue + [c.now]]), true)
  }

  /** The limiter as an object: the queues are changed one element at a time. */
  class ClientRateLimiter {
    const cfg: Config
    var requests: map<Client, seq<real>>
    var lastCleanup: real

    function Contents(): State
      reads this
    {
      State(requests, lastCleanup)
    }

    constructor (maximum: int, window: real)
      ensures cfg == Config(maximum, window) && Contents() == Initial
    {
      cfg := Config(maximum, window);
      requests, lastCleanup := map[], 0.0;
    }

    method PopOld(key: Client, threshold: real)
      requires key in requests
      modifies this`requests
      ensures requests == old(requests)[key := Evict(old(requests)[key], threshold)]
    {
      while requests[key] != [] && requests[key][0] <= threshold
        invariant key in requests
        invariant requests == old(requests)[key := requests[key]]
        invariant Evict(requests[key], threshold) == Evict(old(requests)[key], threshold)
        decreases |requests[key]|
      {
        requests := requests[key := requests[key][1..]];
      }
    }

    method SweepAll(threshold: real)
      modifies this`requests
      ensures requests == Sweep(old(requests), threshold)
    {
      var todo := requests.Keys;
      while todo != {}
        invariant todo <= requests.Keys <= old(requests).Keys
        invariant forall k :: k in todo ==> requests[k] == old(requests)[k]
        invariant forall k :: k in old(requests) && k !in todo ==>
          (k in requests <==> Evict(old(requests)[k], threshold) != [])
        invariant forall k :: k in requests && k !in todo ==>
          requests[k] == Evict(old(requests)[k], threshold)
      {
        var key :| key in todo;
        PopOld(key, threshold);
        if requests[key] == [] {
          requests := requests - {key};
        }
        todo := todo - {key};
      }
    }

    method Allow(client: Client, now: real) returns (allowed: bool)
      modifies this
      ensures Contents() == Step(cfg, old(Contents()), Call(client, now)).0
      ensures allowed == Step(cfg, old(Contents()), Call(client, now)).1
    {
      var threshold := now - cfg.window;
      if now - lastCleanup >= cfg.window {
        SweepAll(threshold);
        lastCleanup := now;
      }
      ghost var swept := Swept(cfg, old(Contents()), now);
      assert Contents() == swept;
      if client !in requests {
        requests := requests[client := []];
      }
      assert requests == swept.requests[client := Queue(swept.requests, client)];
      PopOld(client, threshold);
      ghost var queue := Evict(Queue(swept.requests, client), threshold);
      assert requests == swept.requests[client := queue];
      if |requests[client]| >= cfg.maximum {
        return false;
      }
      requests := requests[client := requests[client] + [now]];
      assert requests == swept.requests[client := queue + [now]];
      return true;
    }
  }

  /** The state after a list of calls in lock order. */
  function Run(cfg: Config, calls: seq<Call>): State {
    if calls == [] then Initial
    else Step(cfg, Run(cfg, calls[..|calls| - 1]), calls[|calls| - 1]).0
  }

  /** The times at which the limiter itself let the client through. */
  function Granted(cfg: Config, calls: seq<Call>, client: Client): seq<real> {
    if calls == [] then []
    else
      var before, c := calls[..|calls| - 1], calls[|calls| - 1];
      var earlier := Granted(cfg, before, client);
      if c.client == client && Step(cfg, Run(cfg, before), c).1 then earlier + [c.now] else earlier
  }

  /** The members of a full history that are newer than the threshold, in order. */
  function Recent(times: seq<real>, threshold: real): seq<real> {
    if times == [] then []
    else
      Recent(times[..|times| - 1], threshold)
      + if times[|times| - 1] > threshold then [times[|times| - 1]] else []
  }

  /** The reference: admit while fewer than `maximum` admissions of the whole history are recent. */
  function Admitted(cfg: Config, calls: seq<Call>, client: Client): seq<real> {
    if calls == [] then []
    else
      var history, c := Admitted(cfg, calls[..|calls| - 1], client), calls[|calls| - 1];
      if c.client == client && |Recent(history, c.now - cfg.window)| < cfg.maximum then history + [c.now] else history
  }

  ghost predicate Nondecreasing(calls: seq<Call>) {
    forall i, j :: 0 <= i < j < |calls| ==> calls[i].now <= calls[j].now
  }

  ghost predicate AtMost(queue: seq<real>, bound: real) {
    forall i :: 0 <= i < |queue| ==> queue[i] <= bound
  }

  ghost predicate Sorted(times: seq<real>) {
    forall i, j :: 0 <= i < j < |times| ==> times[i] <= times[j]
  }

  // ---- Queues and thresholds ----

  lemma {:induction false} EvictTwice(q: seq<real>, low: real, high: real)
    requires low <= high
    ensures Evict(Evict(q, low), high) == Evict(q, high)
  {
    if q != [] && q[0] <= low {
      EvictTwice(q[1..], low, high);
    }
  }

  lemma {:induction false} EvictIsTail(q: seq<real>, threshold: real) returns (gone: nat)
    ensures gone <= |q| && Evict(q, threshold) == q[gone..]
    ensures forall i :: 0 <= i < gone ==> q[i] <= threshold
  {
    gone := 0;
    if q != [] && q[0] <= threshold {
      var n := EvictIsTail(q[1..], threshold);
      gone := n + 1;
    }
  }

  lemma {:induction false} EvictAppend(q: seq<real>, x: real, threshold: real)
    ensures Evict(q + [x], threshold)
         == if Evict(q, threshold) != [] then Evict(q, threshold) + [x] else Evict([x], threshold)
  {
    if q == [] {
      assert q + [x] == [x];
    } else {
      assert (q + [x])[1..] == q[1..] + [x];
      if q[0] <= threshold {
        EvictAppend(q[1..], x, threshold);
      }
    }
  }

  lemma {:induction false} RecentSplits(a: seq<real>, b: seq<real>, threshold: real)
    ensures Recent(a + b, threshold) == Recent(a, threshold) + Recent(b, threshold)
  {
    if b == [] {
      assert a + b == a;
    } else {
      assert (a + b)[..|a + b| - 1] == a + b[..|b| - 1];
      RecentSplits(a, b[..|b| - 1], threshold);
    }
  }

  lemma {:induction false} RecentOfOld(times: seq<real>, threshold: real)
    requires AtMost(times, threshold)
    ensures Recent(times, threshold) == []
  {
    if times != [] {
      RecentOfOld(times[..|times| - 1], threshold);
    }
  }

  lemma {:induction false} RecentAtMostAll(times: seq<real>, threshold: real)
    ensures |Recent(times, threshold)| <= |times|
    ensures |Recent(times, threshold)| == |times| ==>
      Recent(times, threshold) == times && forall i :: 0 <= i < |times| ==> times[i] > threshold
  {
    if times != [] {
      RecentAtMostAll(times[..|times| - 1], threshold);
    }
  }

  /** Taking old times off the front leaves all recent ones, and perhaps others between them. */
  lemma EvictKeepsRecent(q: seq<real>, threshold: real)
    ensures Recent(Evict(q, threshold), threshold) == Recent(q, threshold)
  {
    var gone := EvictIsTail(q, threshold);
    assert q == q[..gone] + q[gone..];
    RecentSplits(q[..gone], q[gone..], threshold);
    RecentOfOld(q[..gone], threshold);
  }

  lemma {:induction false} SortedEvictIsRecent(q: seq<real>, threshold: real)
    requires Sorted(q)
    ensures Evict(q, threshold) == Recent(q, threshold)
  {
    if q != [] {
      if q[0] <= threshold {
        SortedEvictIsRecent(q[1..], threshold);
        EvictKeepsRecent(q, threshold);
        EvictKeepsRecent(q[1..], threshold);
      } else {
        AllRecent(q, threshold);
      }
    }
  }

  lemma {:induction false} AllRecent(times: seq<real>, threshold: real)
    requires forall i :: 0 <= i < |times| ==> times[i] > threshold
    ensures Recent(times, threshold) == times
  {
    if times != [] {
      AllRecent(times[..|times| - 1], threshold);
    }
  }

  /** At the later and smaller of two times the queue counts one time too many. */
  lemma InversionShows(q: seq<real>, i: nat, j: nat)
    requires i < j < |q| && q[i] > q[j]
    ensures |Recent(q, q[j])| < |Evict(q, q[j])|
  {
    var gone := EvictIsTail(q, q[j]);
    var rest := q[gone..];
    EvictKeepsRecent(q, q[j]);
    RecentAtMostAll(rest, q[j]);
    assert rest[j - gone] == q[j];
  }

  /** A queue counts its recent members right at every threshold exactly when it is in order. */
  lemma SortedQueuesCount(q: seq<real>)
    ensures Sorted(q) <==> forall threshold :: |Evict(q, threshold)| == |Recent(q, threshold)|
  {
    if Sorted(q) {
      forall threshold ensures |Evict(q, threshold)| == |Recent(q, threshold)| {
        SortedEvictIsRecent(q, threshold);
      }
    } else {
      var i, j :| 0 <= i < j < |q| && q[i] > q[j];
      InversionShows(q, i, j);
    }
  }

  // ---- What a queue remembers ----

  /** What one call does to one client's queue, and its answer if it is this client's call. */
  lemma StepQueue(cfg: Config, s: State, c: Call, client: Client)
    ensures
      var q, threshold := Queue(s.requests, client), c.now - cfg.window;
      var q' := Queue(Step(cfg, s, c).0.requests, client);
      if c.client == client then
        && (Step(cfg, s, c).1 <==> |Evict(q, threshold)| < cfg.maximum)
        && q' == if Step(cfg, s, c).1 then Evict(q, threshold) + [c.now] else Evict(q, threshold)
      else q' == if c.now - s.lastCleanup >= cfg.window then Evict(q, threshold) else q
  {
    var q, threshold := Queue(s.requests, client), c.now - cfg.window;
    EvictTwice(q, threshold, threshold);
    assert Queue(Sweep(s.requests, threshold), client) == Evict(q, threshold);
  }

  // ---- One client's view ----

  /** When all queues were last swept. */
  function LastSweep(cfg: Config, calls: seq<Call>): real {
    if calls == [] then 0.0
    else
      var last, c := LastSweep(cfg, calls[..|calls| - 1]), calls[|calls| - 1];
      if c.now - last >= cfg.window then c.now else last
  }

  /** One client's queue after a list of calls; other clients only matter by their sweeps. */
  function QueueOf(cfg: Config, calls: seq<Call>, client: Client): seq<real> {
    if calls == [] then []
    else
      var before, c := calls[..|calls| - 1], calls[|calls| - 1];
      var queue := QueueOf(cfg, before, client);
      var rest := Evict(queue, c.now - cfg.window);
      if c.client != client then (if c.now - LastSweep(cfg, before) >= cfg.window then rest else queue)
      else if |rest| < cfg.maximum then rest + [c.now]
      else rest
  }

  function History(cfg: Config, calls: seq<Call>, client: Client): seq<real> {
    if calls == [] then []
    else
      var before, c := calls[..|calls| - 1], calls[|calls| - 1];
      var history := History(cfg, before, client);
      if c.client == client && |Evict(QueueOf(cfg, before, client), c.now - cfg.window)| < cfg.maximum
      then history + [c.now] else history
  }

  lemma {:induction false} RunSeenByClient(cfg: Config, calls: seq<Call>, client: Client)
    ensures Run(cfg, calls).lastCleanup == LastSweep(cfg, calls)
    ensures Queue(Run(cfg, calls).requests, client) == QueueOf(cfg, calls, client)
    ensures Granted(cfg, calls, client) == History(cfg, calls, client)
  {
    if calls != [] {
      var before, c := calls[..|calls| - 1], calls[|calls| - 1];
      RunSeenByClient(cfg, before, client);
      StepQueue(cfg, Run(cfg, before), c, client);
    }
  }

  lemma CallEffect(cfg: Config, before: seq<Call>, c: Call, client: Client)
    ensures
      var queue, history := QueueOf(cfg, before, client), History(cfg, before, client);
      var queue', history' := QueueOf(cfg, before + [c], client), History(cfg, before + [c], client);
      var rest := Evict(queue, c.now - cfg.window);
      if c.client != client then
        history' == history && queue' == if c.now - LastSweep(cfg, before) >= cfg.window then rest else queue
      else if |rest| < cfg.maximum then queue' == rest + [c.now] && history' == history + [c.now]
      else queue' == rest && history' == history
  {
    var all := before + [c];
    assert all[..|all| - 1] == before && all[|all| - 1] == c;
  }

  ghost predicate NotAfter(calls: seq<Call>, bound: real) {
    forall i :: 0 <= i < |calls| ==> calls[i].now <= bound
  }

  /** The queue is the end of the history, and what is missing before it is no newer than `bound`. */
  ghost predicate Remembers(history: seq<real>, queue: seq<real>, bound: real) {
    && |queue| <= |history| && history[|history| - |queue|..] == queue
    && AtMost(history[..|history| - |queue|], bound)
  }

  lemma RemembersLess(history: seq<real>, queue: seq<real>, threshold: real, bound: real)
    requires Remembers(history, queue, bound) && threshold <= bound
    ensures Remembers(history, Evict(queue, threshold), bound)
  {
    var gone := EvictIsTail(queue, threshold);
    var n := |history| - |queue|;
    assert history[n + gone..] == queue[gone..];
    forall i | 0 <= i < n + gone
      ensures history[i] <= bound
    {
      if i < n {
        assert history[..n][i] <= bound;
      } else {
        assert history[i] == history[n..][i - n] == queue[i - n];
      }
    }
  }

  lemma RemembersMore(history: seq<real>, queue: seq<real>, bound: real, x: real)
    requires Remembers(history, queue, bound)
    ensures Remembers(history + [x], queue + [x], bound)
  {
    var n := |history| - |queue|;
    assert (history + [x])[..n] == history[..n] && (history + [x])[n..] == history[n..] + [x];
  }

  ghost predicate QueueRemembersAt(cfg: Config, calls: seq<Call>, client: Client, bound: real) {
    Remembers(History(cfg, calls, client), QueueOf(cfg, calls, client), bound - cfg.window)
  }

  lemma RemembersOneMore(cfg: Config, before: seq<Call>, c: Call, client: Client, bound: real)
    requires QueueRemembersAt(cfg, before, client, bound) && c.now <= bound
    ensures QueueRemembersAt(cfg, before + [c], client, bound)
  {
    var history, queue := History(cfg, before, client), QueueOf(cfg, before, client);
    CallEffect(cfg, before, c, client);
    RemembersStep(history, queue, c.now - cfg.window, bound - cfg.window, c.now);
  }

  lemma RemembersStep(history: seq<real>, queue: seq<real>, threshold: real, bound: real, now: real)
    requires Remembers(history, queue, bound) && threshold <= bound
    ensures Remembers(history, Evict(queue, threshold), bound)
    ensures Remembers(history + [now], Evict(queue, threshold) + [now], bound)
  {
    RemembersLess(history, queue, threshold, bound);
    RemembersMore(history, Evict(queue, threshold), bound, now);
  }

  /** Whatever the order of the times, a queue forgets only what is a window older than some call. */
  lemma {:induction false} QueueRemembers(cfg: Config, calls: seq<Call>, client: Client, bound: real)
    requires NotAfter(calls, bound)
    ensures QueueRemembersAt(cfg, calls, client, bound)
  {
    if calls != [] {
      var before, c := calls[..|calls| - 1], calls[|calls| - 1];
      assert calls == before + [c];
      QueueRemembers(cfg, before, client, bound);
      RemembersOneMore(cfg, before, c, client, bound);
    }
  }

  // ---- Agreement with the full history ----

  /** How many admissions the limiter counts at a call, and how many the full history counts. */
  function Queued(cfg: Config, calls: seq<Call>, c: Call): nat {
    |Evict(QueueOf(cfg, calls, c.client), c.now - cfg.window)|
  }

  function Recalled(cfg: Config, calls: seq<Call>, c: Call): nat {
    |Recent(History(cfg, calls, c.client), c.now - cfg.window)|
  }

  /** The answer is the one that the full history of admissions gives. */
  ghost predicate Agrees(cfg: Config, calls: seq<Call>, c: Call) {
    Step(cfg, Run(cfg, calls), c).1
    <==> |Recent(Granted(cfg, calls, c.client), c.now - cfg.window)| < cfg.maximum
  }

  lemma AgreesByCounts(cfg: Config, calls: seq<Call>, c: Call)
    ensures Agrees(cfg, calls, c)
       <==> (Queued(cfg, calls, c) < cfg.maximum <==> Recalled(cfg, calls, c) < cfg.maximum)
  {
    RunSeenByClient(cfg, calls, c.client);
    StepQueue(cfg, Run(cfg, calls), c, c.client);
  }

  /** A queue that forgot only old members of an ordered history counts as the history does. */
  lemma OrderedTailCounts(history: seq<real>, queue: seq<real>, threshold: real)
    requires Remembers(history, queue, threshold) && Sorted(history)
    ensures Evict(queue, threshold) == Recent(history, threshold)
  {
    var n := |history| - |queue|;
    assert history == history[..n] + queue;
    assert Sorted(queue) by {
      assert forall i :: 0 <= i < |queue| ==> queue[i] == history[n + i];
    }
    RecentSplits(history[..n], queue, threshold);
    RecentOfOld(history[..n], threshold);
    SortedEvictIsRecent(queue, threshold);
  }

  /** The times of one client's calls, admitted or not. */
  function OwnTimes(calls: seq<Call>, client: Client): seq<real> {
    if calls == [] then []
    else
      var earlier, c := OwnTimes(calls[..|calls| - 1], client), calls[|calls| - 1];
      if c.client == client then earlier + [c.now] else earlier
  }

  lemma {:induction false} OwnTimesSplit(a: seq<Call>, b: seq<Call>, client: Client)
    ensures OwnTimes(a + b, client) == OwnTimes(a, client) + OwnTimes(b, client)
  {
    if b == [] {
      assert a + b == a;
    } else {
      assert (a + b)[..|a + b| - 1] == a + b[..|b| - 1];
      OwnTimesSplit(a, b[..|b| - 1], client);
    }
  }

  lemma {:induction false} OwnTimesAreTimes(calls: seq<Call>, client: Client)
    ensures |OwnTimes(calls, client)| <= |calls|
    ensures forall t :: t in OwnTimes(calls, client) ==> exists i :: 0 <= i < |calls| && calls[i].now == t
  {
    if calls != [] {
      var before, c := calls[..|calls| - 1], calls[|calls| - 1];
      OwnTimesAreTimes(before, client);
      forall t | t in OwnTimes(calls, client)
        ensures exists i :: 0 <= i < |calls| && calls[i].now == t
      {
        if t in OwnTimes(before, client) {
          var i :| 0 <= i < |before| && before[i].now == t;
          assert calls[i].now == t;
        } else {
          assert calls[|calls| - 1].now == t;
        }
      }
    }
  }

  lemma {:induction false} NondecreasingOwnTimes(calls: seq<Call>, client: Client)
    requires Nondecreasing(calls)
    ensures Sorted(OwnTimes(calls, client))
  {
    if calls != [] {
      var before := calls[..|calls| - 1];
      NondecreasingOwnTimes(before, client);
      OwnTimesAreTimes(before, client);
      var own := OwnTimes(before, client);
      forall i | 0 <= i < |own|
        ensures own[i] <= calls[|calls| - 1].now
      {
        assert own[i] in own;
        var k :| 0 <= k < |before| && before[k].now == own[i];
        assert calls[k] == before[k];
      }
    }
  }

  /** Admissions are times of calls, so they are in order when those are. */
  lemma {:induction false} GrantedInOrder(cfg: Config, calls: seq<Call>, client: Client)
    requires Sorted(OwnTimes(calls, client))
    ensures Sorted(History(cfg, calls, client))
    ensures forall t :: t in History(cfg, calls, client) ==> t in OwnTimes(calls, client)
  {
    if calls != [] {
      var before, c := calls[..|calls| - 1], calls[|calls| - 1];
      var earlier, own := OwnTimes(before, client), OwnTimes(calls, client);
      assert Sorted(earlier) by {
        assert forall i :: 0 <= i < |earlier| ==> earlier[i] == own[i];
      }
      GrantedInOrder(cfg, before, client);
      var granted := History(cfg, before, client);
      if c.client == client {
        forall i | 0 <= i < |granted|
          ensures granted[i] <= c.now
        {
          assert granted[i] in granted;
          var k :| 0 <= k < |earlier| && earlier[k] == granted[i];
          assert own[k] <= own[|earlier|];
        }
      }
    }
  }

  /** For a client whose own times never went back, and a call that is no earlier than any call so far,
      the queue counts as the full history does, whatever other clients' times did. */
  lemma OwnOrderCounts(cfg: Config, calls: seq<Call>, c: Call)
    requires Sorted(OwnTimes(calls, c.client)) && NotAfter(calls, c.now)
    ensures Queued(cfg, calls, c) == Recalled(cfg, calls, c)
  {
    QueueRemembers(cfg, calls, c.client, c.now);
    GrantedInOrder(cfg, calls, c.client);
    OrderedTailCounts(History(cfg, calls, c.client), QueueOf(cfg, calls, c.client), c.now - cfg.window);
  }

  lemma OwnOrderSuffices(cfg: Config, calls: seq<Call>, c: Call)
    requires Sorted(OwnTimes(calls, c.client)) && NotAfter(calls, c.now)
    ensures Agrees(cfg, calls, c)
  {
    OwnOrderCounts(cfg, calls, c);
    AgreesByCounts(cfg, calls, c);
  }

  /** Main result 1: lazy eviction and sweeping never show.  For calls in lock order whose times
      do not go back, every answer is the one a limiter with the full history would give. */
  lemma AnswersAsFullHistory(cfg: Config, calls: seq<Call>, c: Call)
    requires Nondecreasing(calls + [c])
    ensures Agrees(cfg, calls, c)
  {
    assert forall i :: 0 <= i < |calls| ==> calls[i] == (calls + [c])[i];
    assert (calls + [c])[|calls|] == c;
    NondecreasingOwnTimes(calls, c.client);
    OwnOrderSuffices(cfg, calls, c);
  }

  lemma AdmittedLast(cfg: Config, before: seq<Call>, c: Call, client: Client)
    ensures
      var history := Admitted(cfg, before, client);
      Admitted(cfg, before + [c], client)
      == if c.client == client && |Recent(history, c.now - cfg.window)| < cfg.maximum
         then history + [c.now] else history
  {
    var all := before + [c];
    assert all[..|all| - 1] == before && all[|all| - 1] == c;
  }

  lemma AdmittedOneMore(cfg: Config, before: seq<Call>, c: Call, client: Client)
    requires Nondecreasing(before + [c]) && History(cfg, before, client) == Admitted(cfg, before, client)
    ensures History(cfg, before + [c], client) == Admitted(cfg, before + [c], client)
  {
    var all := before + [c];
    assert forall i :: 0 <= i < |before| ==> before[i] == all[i];
    assert all[|before|] == c;
    CallEffect(cfg, before, c, client);
    AdmittedLast(cfg, before, c, client);
    NondecreasingOwnTimes(before, c.client);
    OwnOrderCounts(cfg, before, c);
  }

  lemma {:induction false} HistoryIsAdmitted(cfg: Config, calls: seq<Call>, client: Client)
    requires Nondecreasing(calls)
    ensures History(cfg, calls, client) == Admitted(cfg, calls, client)
  {
    if calls != [] {
      var before, c := calls[..|calls| - 1], calls[|calls| - 1];
      assert calls == before + [c];
      HistoryIsAdmitted(cfg, before, client);
      AdmittedOneMore(cfg, before, c, client);
    }
  }

  /** So the limiter admits exactly what the reference admits. */
  lemma GrantedIsAdmitted(cfg: Config, calls: seq<Call>, client: Client)
    requires Nondecreasing(calls)
    ensures Granted(cfg, calls, client) == Admitted(cfg, calls, client)
  {
    HistoryIsAdmitted(cfg, calls, client);
    RunSeenByClient(cfg, calls, client);
  }

  /** Times go on from `calls`: in order, and none before any of them. */
  ghost predicate Continues(calls: seq<Call>, later: seq<Call>, now: real) {
    Nondecreasing(later) && NotAfter(calls + later, now)
    && forall i, j :: 0 <= i < |calls| && 0 <= j < |later| ==> calls[i].now <= later[j].now
  }

  ghost predicate LaterAgrees(cfg: Config, calls: seq<Call>, later: seq<Call>, client: Client, now: real) {
    Continues(calls, later, now) ==> Agrees(cfg, calls + later, Call(client, now))
  }

  lemma OwnOrderContinues(cfg: Config, calls: seq<Call>, later: seq<Call>, client: Client, now: real)
    requires Sorted(OwnTimes(calls, client))
    ensures LaterAgrees(cfg, calls, later, client, now)
  {
    if Continues(calls, later, now) {
      var a, b := OwnTimes(calls, client), OwnTimes(later, client);
      OwnTimesSplit(calls, later, client);
      NondecreasingOwnTimes(later, client);
      OwnTimesAreTimes(calls, client);
      OwnTimesAreTimes(later, client);
      forall i, j | 0 <= i < |a| && 0 <= j < |b|
        ensures a[i] <= b[j]
      {
        assert a[i] in a && b[j] in b;
      }
      OwnOrderSuffices(cfg, calls + later, Call(client, now));
    }
  }

  ghost predicate Between(calls: seq<Call>, low: real, high: real) {
    forall i :: 0 <= i < |calls| ==> low <= calls[i].now <= high
  }

  lemma {:induction false} SomeBounds(calls: seq<Call>) returns (low: real, high: real)
    ensures low <= high && Between(calls, low, high)
  {
    if calls == [] {
      return 0.0, 0.0;
    }
    var t := calls[|calls| - 1].now;
    low, high := SomeBounds(calls[..|calls| - 1]);
    low, high := if t < low then t else low, if t > high then t else high;
    assert forall i :: 0 <= i < |calls| - 1 ==> calls[i] == calls[..|calls| - 1][i];
  }

  lemma {:induction false} NothingToEvict(q: seq<real>, threshold: real)
    requires q == [] || q[0] > threshold
    ensures Evict(q, threshold) == q
  {
  }

  /** With a window wider than the spread of the times and room for all calls, every call is
      admitted and nothing is forgotten. */
  lemma {:induction false} WideWindowKeepsAll(cfg: Config, calls: seq<Call>, client: Client, low: real, high: real)
    requires Between(calls, low, high) && cfg.window > high - low && cfg.maximum >= |calls|
    ensures QueueOf(cfg, calls, client) == OwnTimes(calls, client) == History(cfg, calls, client)
  {
    if calls != [] {
      var before, c := calls[..|calls| - 1], calls[|calls| - 1];
      assert calls == before + [c];
      WideWindowKeepsAll(cfg, before, client, low, high);
      CallEffect(cfg, before, c, client);
      OwnTimesAreTimes(before, client);
      var own := OwnTimes(before, client);
      if own != [] {
        assert own[0] in own;
      }
      NothingToEvict(own, c.now - cfg.window);
    }
  }

  function Repeat(c: Call, n: nat): seq<Call> {
    if n == 0 then [] else Repeat(c, n - 1) + [c]
  }

  lemma {:induction false} RepeatIs(c: Call, n: nat)
    ensures |Repeat(c, n)| == n && forall i :: 0 <= i < n ==> Repeat(c, n)[i] == c
  {
    if n > 0 {
      RepeatIs(c, n - 1);
    }
  }

  lemma OneMoreQueued(cfg: Config, before: seq<Call>, c: Call)
    requires cfg.window > 0.0 && 0 < Queued(cfg, before, c) < cfg.maximum
    ensures Queued(cfg, before + [c], c) == Queued(cfg, before, c) + 1
  {
    var threshold, queue := c.now - cfg.window, QueueOf(cfg, before, c.client);
    CallEffect(cfg, before, c, c.client);
    EvictTwice(queue, threshold, threshold);
    EvictAppend(Evict(queue, threshold), c.now, threshold);
  }

  lemma OneMoreRecalled(cfg: Config, before: seq<Call>, c: Call)
    requires cfg.window > 0.0 && Queued(cfg, before, c) < cfg.maximum
    ensures Recalled(cfg, before + [c], c) == Recalled(cfg, before, c) + 1
  {
    CallEffect(cfg, before, c, c.client);
    RecentSplits(History(cfg, before, c.client), [c.now], c.now - cfg.window);
    AllRecent([c.now], c.now - cfg.window);
  }

  /** Repeated calls at one time fill the queue up to the limit. */
  lemma {:induction false} CallsFill(cfg: Config, calls: seq<Call>, c: Call, n: nat)
    requires cfg.window > 0.0 && 0 < Queued(cfg, calls, c) && Queued(cfg, calls, c) + n <= cfg.maximum
    ensures Queued(cfg, calls + Repeat(c, n), c) == Queued(cfg, calls, c) + n
    ensures Recalled(cfg, calls + Repeat(c, n), c) == Recalled(cfg, calls, c) + n
  {
    if n == 0 {
      assert calls + [] == calls;
    } else {
      var before := calls + Repeat(c, n - 1);
      assert calls + Repeat(c, n) == before + [c];
      CallsFill(cfg, calls, c, n - 1);
      OneMoreQueued(cfg, before, c);
      OneMoreRecalled(cfg, before, c);
    }
  }

  /** Calls at a time after all others, which puts the threshold at the later and smaller of two times. */
  lemma InversionMiscounts(calls: seq<Call>, client: Client, low: real, high: real) returns (c: Call)
    requires Between(calls, low, high) && !Sorted(OwnTimes(calls, client))
    ensures c.client == client && c.now > high
    ensures
      var cfg := Config(|calls|, high - low + 1.0);
      Recalled(cfg, calls, c) < Queued(cfg, calls, c) <= |calls|
  {
    var cfg, own := Config(|calls|, high - low + 1.0), OwnTimes(calls, client);
    OwnTimesAreTimes(calls, client);
    var i, j :| 0 <= i < j < |own| && own[i] > own[j];
    assert own[j] in own;
    c := Call(client, own[j] + cfg.window);
    assert c.now - cfg.window == own[j];
    if calls != [] {
      WideWindowKeepsAll(cfg, calls, client, low, high);
    }
    InversionShows(own, i, j);
    var gone := EvictIsTail(own, own[j]);
  }

  lemma RepeatContinues(calls: seq<Call>, c: Call, n: nat, high: real)
    requires NotAfter(calls, high) && high < c.now
    ensures Continues(calls, Repeat(c, n), c.now)
  {
    RepeatIs(c, n);
  }

  /** Where a client's own times went back, some limit, window and continuation show it. */
  lemma InversionIsSeen(calls: seq<Call>, client: Client) returns (cfg: Config, later: seq<Call>, now: real)
    requires !Sorted(OwnTimes(calls, client))
    ensures !LaterAgrees(cfg, calls, later, client, now)
  {
    var low, high := SomeBounds(calls);
    cfg := Config(|calls|, high - low + 1.0);
    var c := InversionMiscounts(calls, client, low, high);
    now := c.now;
    var n := |calls| - Queued(cfg, calls, c);
    later := Repeat(c, n);
    RepeatContinues(calls, c, n, high);
    CallsFill(cfg, calls, c, n);
    AgreesByCounts(cfg, calls + later, c);
  }

  /** Main result 2: exactly when the full history is agreed with once times are in order again.  After any
      calls, every answer to a client is the full-history one, for every limit, window and continuation
      in which no time goes back behind any call of any client, if and only if the times of that client's
      own calls never went back.  For calls that are behind others, see `AgreesBehindSweepsExactly`. */
  lemma LaterAnswersAgreeExactly(calls: seq<Call>, client: Client)
    ensures (forall cfg, later, now :: LaterAgrees(cfg, calls, later, client, now))
       <==> Sorted(OwnTimes(calls, client))
  {
    if Sorted(OwnTimes(calls, client)) {
      forall cfg, later, now ensures LaterAgrees(cfg, calls, later, client, now) {
        OwnOrderContinues(cfg, calls, later, client, now);
      }
    } else {
      var cfg, later, now := InversionIsSeen(calls, client);
    }
  }

  // ---- Admissions in a window ----

  /** The members of a history inside a window that is open on the left. */
  function Within(times: seq<real>, after: real, upTo: real): seq<real> {
    if times == [] then []
    else
      var last := times[|times| - 1];
      Within(times[..|times| - 1], after, upTo) + if after < last <= upTo then [last] else []
  }

  lemma {:induction false} WithinSplits(a: seq<real>, b: seq<real>, after: real, upTo: real)
    ensures Within(a + b, after, upTo) == Within(a, after, upTo) + Within(b, after, upTo)
  {
    if b == [] {
      assert a + b == a;
    } else {
      assert (a + b)[..|a + b| - 1] == a + b[..|b| - 1];
      WithinSplits(a, b[..|b| - 1], after, upTo);
    }
  }

  lemma {:induction false} WithinOfOld(times: seq<real>, after: real, upTo: real)
    requires AtMost(times, after)
    ensures Within(times, after, upTo) == []
  {
    if times != [] {
      WithinOfOld(times[..|times| - 1], after, upTo);
    }
  }

  lemma {:induction false} WithinBounds(times: seq<real>, after: real, upTo: real)
    ensures |Within(times, after, upTo)| <= |times|
    ensures (forall i :: 0 <= i < |times| ==> after < times[i] <= upTo) ==> |Within(times, after, upTo)| == |times|
  {
    if times != [] {
      WithinBounds(times[..|times| - 1], after, upTo);
    }
  }

  /** Times go back by at most `back` in lock order. */
  ghost predicate BackAtMost(calls: seq<Call>, back: real) {
    forall i, j :: 0 <= i < j < |calls| ==> calls[j].now >= calls[i].now - back
  }

  /** The promise for one window. */
  ghost predicate Holds(cfg: Config, calls: seq<Call>, client: Client, length: real, end: real) {
    |Within(Granted(cfg, calls, client), end - length, end)| <= cfg.maximum
  }

  ghost predicate HistoryHolds(cfg: Config, calls: seq<Call>, client: Client, length: real, end: real) {
    |Within(History(cfg, calls, client), end - length, end)| <= cfg.maximum
  }

  /** If times go back by at most `back`, every window that is shorter by as much holds the promise. */
  lemma {:induction false} ShorterWindowsHold(cfg: Config, calls: seq<Call>, client: Client,
                                              length: real, back: real, end: real)
    requires cfg.maximum >= 0 && back >= 0.0 && BackAtMost(calls, back) && length + back <= cfg.window
    ensures HistoryHolds(cfg, calls, client, length, end)
  {
    if calls != [] {
      var before, c := calls[..|calls| - 1], calls[|calls| - 1];
      assert calls == before + [c];
      ShorterWindowsHold(cfg, before, client, length, back, end);
      assert forall i :: 0 <= i < |before| ==> before[i] == calls[i];
      HoldsOneMore(cfg, before, c, client, length, back, end);
    }
  }

  lemma HoldsOneMore(cfg: Config, before: seq<Call>, c: Call, client: Client, length: real, back: real, end: real)
    requires HistoryHolds(cfg, before, client, length, end) && back >= 0.0 && length + back <= cfg.window
    requires NotAfter(before, c.now + back)
    ensures HistoryHolds(cfg, before + [c], client, length, end)
  {
    var history, after := History(cfg, before, client), end - length;
    CallEffect(cfg, before, c, client);
    WithinSplits(history, [c.now], after, end);
    WithinBounds([c.now], after, end);
    assert [c.now][..0] == [];
    assert Within([c.now], after, end) == if after < c.now <= end then [c.now] else [];
    if after < c.now <= end {
      QueueHoldsWindow(cfg, before, c, after, end, c.now + back);
    }
  }

  /** What is still queued at a call includes all admissions of a window around it. */
  lemma QueueHoldsWindow(cfg: Config, before: seq<Call>, c: Call, after: real, upTo: real, bound: real)
    requires NotAfter(before, bound) && c.now <= bound && bound - cfg.window <= after
    ensures |Within(History(cfg, before, c.client), after, upTo)| <= Queued(cfg, before, c)
  {
    QueueRemembers(cfg, before, c.client, bound);
    HistoryInQueue(History(cfg, before, c.client), QueueOf(cfg, before, c.client),
                   c.now - cfg.window, bound - cfg.window, after, upTo);
  }

  lemma HistoryInQueue(history: seq<real>, queue: seq<real>, threshold: real, bound: real, after: real, upTo: real)
    requires Remembers(history, queue, bound) && threshold <= bound <= after
    ensures |Within(history, after, upTo)| <= |Evict(queue, threshold)|
  {
    RemembersLess(history, queue, threshold, bound);
    TailHoldsWindow(history, Evict(queue, threshold), bound, after, upTo);
  }

  lemma TailHoldsWindow(history: seq<real>, queue: seq<real>, bound: real, after: real, upTo: real)
    requires Remembers(history, queue, bound) && bound <= after
    ensures |Within(history, after, upTo)| <= |queue|
  {
    var n := |history| - |queue|;
    assert history == history[..n] + queue;
    WithinSplits(history[..n], queue, after, upTo);
    WithinOfOld(history[..n], after, upTo);
    WithinBounds(queue, after, upTo);
  }

  /** Main result 3: no window of the configured length, wherever it ends, holds more
      than `maximum` admissions of one client. */
  lemma NoWindowOverflows(cfg: Config, calls: seq<Call>, client: Client, end: real)
    requires cfg.maximum >= 0 && Nondecreasing(calls)
    ensures Holds(cfg, calls, client, cfg.window, end)
  {
    ShorterWindowsHold(cfg, calls, client, cfg.window, 0.0, end);
    RunSeenByClient(cfg, calls, client);
  }

  /** Every window of this length holds the promise in every run whose times go back so far at most. */
  ghost predicate WindowsHold(cfg: Config, length: real, back: real) {
    forall calls, client, end :: BackAtMost(calls, back) ==> Holds(cfg, calls, client, length, end)
  }

  ghost predicate Filled(cfg: Config, calls: seq<Call>, n: nat) {
    var queue, granted := QueueOf(cfg, calls, "a"), History(cfg, calls, "a");
    && LastSweep(cfg, calls) == 0.0 && |queue| <= n && AtMost(queue, 0.0)
    && |granted| == n && forall i :: 0 <= i < n ==> granted[i] == 0.0
  }

  lemma OneMoreAtStart(cfg: Config, before: seq<Call>, n: nat)
    requires Filled(cfg, before, n) && n < cfg.maximum
    ensures Filled(cfg, before + [Call("a", 0.0)], n + 1)
  {
    var c, queue := Call("a", 0.0), QueueOf(cfg, before, "a");
    CallEffect(cfg, before, c, "a");
    assert (before + [c])[..|before|] == before;
    var gone := EvictIsTail(queue, 0.0 - cfg.window);
  }

  lemma {:induction false} Burst(cfg: Config, n: nat)
    requires n <= cfg.maximum
    ensures Filled(cfg, Repeat(Call("a", 0.0), n), n)
  {
    if n > 0 {
      Burst(cfg, n - 1);
      OneMoreAtStart(cfg, Repeat(Call("a", 0.0), n - 1), n - 1);
    }
  }

  lemma {:induction false} EvictAll(q: seq<real>, threshold: real)
    requires AtMost(q, threshold)
    ensures Evict(q, threshold) == []
  {
    if q != [] {
      EvictAll(q[1..], threshold);
    }
  }

  /** A client fills its limit, another client's call whose time is ahead sweeps that away, and the
      first client's next call carries a time from before. */
  function SweptFromAhead(n: nat, ahead: real, now: real): seq<Call> {
    Repeat(Call("a", 0.0), n) + [Call("b", ahead)] + [Call("a", now)]
  }

  lemma SweepFromAheadOverAdmits(cfg: Config, ahead: real, now: real)
    requires cfg.maximum >= 1 && ahead >= now >= 0.0 && ahead >= cfg.window
    ensures
      var history := History(cfg, SweptFromAhead(cfg.maximum, ahead, now), "a");
      |history| == cfg.maximum + 1 && forall i :: 0 <= i < |history| ==> 0.0 <= history[i] <= now
  {
    var burst, b, c := Repeat(Call("a", 0.0), cfg.maximum), Call("b", ahead), Call("a", now);
    Burst(cfg, cfg.maximum);
    CallEffect(cfg, burst, b, "a");
    EvictAll(QueueOf(cfg, burst, "a"), ahead - cfg.window);
    CallEffect(cfg, burst + [b], c, "a");
  }

  lemma SweepGoesBack(n: nat, ahead: real, now: real, back: real)
    requires ahead >= now >= 0.0 && back >= 0.0 && now >= ahead - back
    ensures BackAtMost(SweptFromAhead(n, ahead, now), back)
  {
    RepeatIs(Call("a", 0.0), n);
  }

  lemma AllWithin(times: seq<real>, after: real, upTo: real)
    requires forall i :: 0 <= i < |times| ==> after < times[i] <= upTo
    ensures |Within(times, after, upTo)| == |times|
  {
    WithinBounds(times, after, upTo);
  }

  lemma SweepOverruns(cfg: Config, length: real, ahead: real, now: real)
    requires cfg.maximum >= 1 && ahead >= now >= 0.0 && ahead >= cfg.window && now < length
    ensures !Holds(cfg, SweptFromAhead(cfg.maximum, ahead, now), "a", length, now)
  {
    var calls := SweptFromAhead(cfg.maximum, ahead, now);
    SweepFromAheadOverAdmits(cfg, ahead, now);
    AllWithin(History(cfg, calls, "a"), now - length, now);
    RunSeenByClient(cfg, calls, "a");
  }

  /** A longer window is overrun by a run that goes back no further than allowed. */
  lemma LongerWindowOverflows(cfg: Config, length: real, back: real) returns (calls: seq<Call>, end: real)
    requires cfg.maximum >= 1 && length > 0.0 && back >= 0.0 && length + back > cfg.window
    ensures BackAtMost(calls, back) && !Holds(cfg, calls, "a", length, end)
  {
    var ahead := if cfg.window > 0.0 then cfg.window else 0.0;
    end := if ahead - back > 0.0 then ahead - back else 0.0;
    calls := SweptFromAhead(cfg.maximum, ahead, end);
    SweepGoesBack(cfg.maximum, ahead, end, back);
    SweepOverruns(cfg, length, ahead, end);
  }

  /** Main result 4: exactly how much of the promise is left when lock order and time order disagree.
      Windows of a length hold it in every run whose times go back by at most `back` if and only
      if length and `back` together are at most the configured window. */
  lemma WindowsHoldExactly(cfg: Config, length: real, back: real)
    requires cfg.maximum >= 1 && length > 0.0 && back >= 0.0
    ensures WindowsHold(cfg, length, back) <==> length + back <= cfg.window
  {
    if length + back <= cfg.window {
      forall calls, client, end | BackAtMost(calls, back)
        ensures Holds(cfg, calls, client, length, end)
      {
        ShorterWindowsHold(cfg, calls, client, length, back, end);
        RunSeenByClient(cfg, calls, client);
      }
    } else {
      var calls, end := LongerWindowOverflows(cfg, length, back);
    }
  }

  // ---- Calls behind another client's sweep ----

  /** The client's own times are in order, up to and including this call's. */
  ghost predicate InOwnOrder(calls: seq<Call>, c: Call) {
    Sorted(OwnTimes(calls, c.client)) && AtMost(OwnTimes(calls, c.client), c.now)
  }

  /** A queue forgets only at its own client's calls and at sweeps. */
  lemma {:induction false} OwnOrderRemembers(cfg: Config, calls: seq<Call>, client: Client, bound: real)
    requires cfg.window >= 0.0 && LastSweep(cfg, calls) <= bound && AtMost(OwnTimes(calls, client), bound)
    ensures QueueRemembersAt(cfg, calls, client, bound)
  {
    if calls != [] {
      var before, c := calls[..|calls| - 1], calls[|calls| - 1];
      var earlier, own := OwnTimes(before, client), OwnTimes(calls, client);
      assert calls == before + [c];
      assert forall i :: 0 <= i < |earlier| ==> earlier[i] == own[i];
      OwnOrderRemembers(cfg, before, client, bound);
      if c.client == client {
        assert own[|earlier|] == c.now;
        RemembersOneMore(cfg, before, c, client, bound);
      } else if c.now - LastSweep(cfg, before) >= cfg.window {
        RemembersOneMore(cfg, before, c, client, bound);
      } else {
        CallEffect(cfg, before, c, client);
      }
    }
  }

  /** A call that is no earlier than the last sweep is answered as by the full history, if the
      client's own times are in order; other clients' times may be ahead of it or behind. */
  lemma SweptInTimeAgrees(cfg: Config, calls: seq<Call>, c: Call)
    requires cfg.window >= 0.0 && InOwnOrder(calls, c) && LastSweep(cfg, calls) <= c.now
    ensures Agrees(cfg, calls, c)
  {
    OwnOrderRemembers(cfg, calls, c.client, c.now);
    GrantedInOrder(cfg, calls, c.client);
    OrderedTailCounts(History(cfg, calls, c.client), QueueOf(cfg, calls, c.client), c.now - cfg.window);
    AgreesByCounts(cfg, calls, c);
  }

  /** With an empty window nothing is ever recent, on either side. */
  lemma EmptyWindowAgrees(cfg: Config, calls: seq<Call>, c: Call)
    requires cfg.window == 0.0 && InOwnOrder(calls, c)
    ensures Agrees(cfg, calls, c)
  {
    var low, high := SomeBounds(calls);
    var history, queue := History(cfg, calls, c.client), QueueOf(cfg, calls, c.client);
    QueueRemembers(cfg, calls, c.client, high);
    GrantedInOrder(cfg, calls, c.client);
    assert forall i :: 0 <= i < |history| ==> history[i] in history;
    RecentOfOld(history, c.now);
    assert forall i :: 0 <= i < |queue| ==> queue[i] == history[|history| - |queue| + i];
    EvictAll(queue, c.now);
    AgreesByCounts(cfg, calls, c);
  }

  lemma {:induction false} RepeatedOwnTimes(c: Call, n: nat)
    ensures |OwnTimes(Repeat(c, n), c.client)| == n
    ensures forall i :: 0 <= i < n ==> OwnTimes(Repeat(c, n), c.client)[i] == c.now
  {
    if n > 0 {
      RepeatedOwnTimes(c, n - 1);
    }
  }

  /** Client "a" fills its limit at time zero; client "b" sweeps that away a whole window later. */
  function FilledAndSwept(cfg: Config): seq<Call>
    requires cfg.maximum >= 0
  {
    Repeat(Call("a", 0.0), cfg.maximum) + [Call("b", cfg.window)]
  }

  lemma FilledAndSweptIs(cfg: Config)
    requires cfg.maximum >= 0 && cfg.window >= 0.0
    ensures
      var calls := FilledAndSwept(cfg);
      && LastSweep(cfg, calls) == cfg.window && QueueOf(cfg, calls, "a") == []
      && OwnTimes(calls, "a") == History(cfg, calls, "a") && |OwnTimes(calls, "a")| == cfg.maximum
      && forall i :: 0 <= i < cfg.maximum ==> OwnTimes(calls, "a")[i] == 0.0
  {
    var burst, b := Repeat(Call("a", 0.0), cfg.maximum), Call("b", cfg.window);
    Burst(cfg, cfg.maximum);
    CallEffect(cfg, burst, b, "a");
    EvictAll(QueueOf(cfg, burst, "a"), 0.0);
    RepeatedOwnTimes(Call("a", 0.0), cfg.maximum);
    assert (burst + [b])[..|burst|] == burst;
  }

  /** A call of client "a" behind that sweep is let through although its limit is used up. */
  lemma BehindTheSweepDisagrees(cfg: Config, now: real)
    requires cfg.maximum >= 1 && 0.0 <= now < cfg.window
    ensures InOwnOrder(FilledAndSwept(cfg), Call("a", now))
    ensures !Agrees(cfg, FilledAndSwept(cfg), Call("a", now))
  {
    var calls, c := FilledAndSwept(cfg), Call("a", now);
    FilledAndSweptIs(cfg);
    AllRecent(OwnTimes(calls, "a"), now - cfg.window);
    assert Queued(cfg, calls, c) == 0 && Recalled(cfg, calls, c) == cfg.maximum;
    AgreesByCounts(cfg, calls, c);
  }

  /** Every client in its own order is answered as by the full history, as long as the last sweep is
      ahead of the call by so much at most. */
  ghost predicate AgreesBehind(cfg: Config, ahead: real) {
    forall calls, c :: InOwnOrder(calls, c) && LastSweep(cfg, calls) <= c.now + ahead ==> Agrees(cfg, calls, c)
  }

  /** Main result 5: exactly how far a call may be behind the last sweep.  For clients whose own times
      are in order, every answer is the full-history one if and only if the call is not behind the
      last sweep at all (or the limiter admits nothing, or its window is empty). */
  lemma AgreesBehindSweepsExactly(cfg: Config, ahead: real)
    requires cfg.window >= 0.0 && ahead >= 0.0
    ensures AgreesBehind(cfg, ahead) <==> ahead == 0.0 || cfg.window == 0.0 || cfg.maximum <= 0
  {
    if ahead == 0.0 || cfg.window == 0.0 || cfg.maximum <= 0 {
      forall calls, c | InOwnOrder(calls, c) && LastSweep(cfg, calls) <= c.now + ahead
        ensures Agrees(cfg, calls, c)
      {
        if cfg.maximum <= 0 {
          AgreesByCounts(cfg, calls, c);
        } else if cfg.window == 0.0 {
          EmptyWindowAgrees(cfg, calls, c);
        } else {
          SweptInTimeAgrees(cfg, calls, c);
        }
      }
    } else {
      var now := if cfg.window - ahead > 0.0 then cfg.window - ahead else 0.0;
      FilledAndSweptIs(cfg);
      BehindTheSweepDisagrees(cfg, now);
    }
  }

  // ---- The two ways in which out-of-order times show ----

  lemma OneAdmission(cfg: Config, before: seq<Call>, c: Call, queue: seq<real>)
    requires QueueOf(cfg, before, c.client) == queue
    requires Evict(queue, c.now - cfg.window) == queue && |queue| < cfg.maximum
    ensures QueueOf(cfg, before + [c], c.client) == queue + [c.now]
    ensures History(cfg, before + [c], c.client) == History(cfg, before, c.client) + [c.now]
  {
    CallEffect(cfg, before, c, c.client);
  }

  /** The clock is read before the lock is taken, so lock order can disagree with time order.
      Then a call can be refused although only one of the two admissions is recent. */
  lemma OutOfOrderTimesBreakAgreement()
    ensures
      var cfg := Config(2, 60.0);
      var calls := [Call("a", 10.0), Call("a", 5.0)];
      && !Nondecreasing(calls)
      && !Step(cfg, Run(cfg, calls), Call("a", 66.0)).1
      && |Recent(Granted(cfg, calls, "a"), 66.0 - cfg.window)| < cfg.maximum
  {
    var cfg := Config(2, 60.0);
    var c1, c2, c3 := Call("a", 10.0), Call("a", 5.0), Call("a", 66.0);
    assert [] + [c1] == [c1] && [c1] + [c2] == [c1, c2];
    OneAdmission(cfg, [], c1, []);
    OneAdmission(cfg, [c1], c2, [10.0]);
    RunSeenByClient(cfg, [c1, c2], "a");
    StepQueue(cfg, Run(cfg, [c1, c2]), c3, "a");
    assert History(cfg, [c1, c2], "a") == [10.0, 5.0];
    assert [10.0, 5.0][..1] == [10.0] && Recent([10.0], 6.0) == [10.0];
    assert [c1, c2][0].now > [c1, c2][1].now;
  }

  /** And a client can be admitted twice inside one window that allows a single admission: another
      client's call, whose time is ahead, swept the first admission away. */
  lemma OutOfOrderTimesOverAdmit()
    ensures
      var cfg := Config(1, 60.0);
      var calls := [Call("a", 10.0), Call("b", 71.0), Call("a", 65.0)];
      && !Nondecreasing(calls) && BackAtMost(calls, 6.0)
      && Granted(cfg, calls, "a") == [10.0, 65.0]
      && |Within(Granted(cfg, calls, "a"), 65.0 - cfg.window, 65.0)| == cfg.maximum + 1
      && InOwnOrder(calls[..2], calls[2]) && !Agrees(cfg, calls[..2], calls[2])
  {
    var cfg := Config(1, 60.0);
    var c1, c2, c3 := Call("a", 10.0), Call("b", 71.0), Call("a", 65.0);
    assert [c1] + [c2] == [c1, c2] && [c1, c2] + [c3] == [c1, c2, c3];
    SweptBySecond(cfg, c1, c2, c3);
    RunSeenByClient(cfg, [c1, c2, c3], "a");
    AllWithin([10.0, 65.0], 5.0, 65.0);
    assert [c1, c2, c3][1].now > [c1, c2, c3][2].now;
    assert [c1, c2, c3][..2] == [c1] + [c2] && [] + [c1] == [c1];
    OwnTimesSplit([c1], [c2], "a");
    AllRecent([10.0], 5.0);
    AgreesByCounts(cfg, [c1] + [c2], c3);
  }

  lemma SweptBySecond(cfg: Config, first: Call, second: Call, third: Call)
    requires cfg.maximum >= 1 && first.client == third.client != second.client
    requires 0.0 <= first.now < cfg.window <= second.now && first.now <= second.now - cfg.window
    ensures History(cfg, [first] + [second], first.client) == [first.now]
    ensures QueueOf(cfg, [first] + [second], first.client) == []
    ensures History(cfg, [first] + [second] + [third], first.client) == [first.now, third.now]
  {
    assert [] + [first] == [first];
    OneAdmission(cfg, [], first, []);
    assert [first][..0] == [] && LastSweep(cfg, [first]) == 0.0;
    CallEffect(cfg, [first], second, first.client);
    EvictAll([first.now], second.now - cfg.window);
    OneAdmission(cfg, [first] + [second], third, []);
  }
}
