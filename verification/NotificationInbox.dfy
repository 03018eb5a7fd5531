/** The Android inbox of captured bank notifications.

    One stored blob holds a list of deliveries in capture order.  Captures, reads and
    acknowledgements are synchronized, so a run is any interleaving of whole operations and of
    restarts of the process, which forget the write latch.  The stored value is the one on
    disk; the copy in memory differs only while the latch is closed, and then nobody reads it.
    What the platform answers during an operation (clock, key store, disk) is the
    parameter Env, so every theorem ranges over all of its misbehaviour. */
module NotificationInbox {
  import opened Common

  /** `body` stands for the package name, the texts and the text lines. */
  datatype Delivery = Delivery(key: string, version: string, postedAt: int, body: string)

  /** Encryption is an injective encoding; a blob may also be one nobody can decode. */
  datatype Blob = Sealed(items: seq<Delivery>) | Clear(items: seq<Delivery>) | Undecodable

  datatype State = State(stored: Option<Blob>, writeFailed: bool)

  /** The platform during one operation: the clock, whether decryption and encryption work,
      whether the commit reports success, and whether a commit that reports failure
      replaced the value all the same. */
  datatype Env = Env(now: int, canOpen: bool, canSeal: bool, commits: bool, landed: bool)

  datatype Op = Save(delivery: Delivery) | ReadAll | Remove(key: string, version: string) | Erase

  datatype Outcome = Done(read: seq<Delivery>) | NeedsRecovery | SealFailed | CommitFailed

  const MAX_ITEMS := 100
  const RETENTION_MILLIS := 7 * 24 * 60 * 60 * 1000

  const Empty := State(None, false)

  function Keep(items: seq<Delivery>, wanted: Delivery -> bool): (kept: seq<Delivery>)
    ensures |kept| <= |items|
  {
    if items == [] then []
    else (if wanted(items[0]) then [items[0]] else []) + Keep(items[1..], wanted)
  }

  function TakeLast(items: seq<Delivery>, n: nat): seq<Delivery> {
    if |items| > n then items[|items| - n..] else items
  }

  function Unexpired(now: int): Delivery -> bool {
    (d: Delivery) => d.postedAt >= now - RETENTION_MILLIS
  }

  function UnexpiredOther(key: string, now: int): Delivery -> bool {
    (d: Delivery) => d.key != key && d.postedAt >= now - RETENTION_MILLIS
  }

  function NotAcknowledged(key: string, version: string): Delivery -> bool {
    (d: Delivery) => d.key != key || d.version != version
  }

  function Updated(items: seq<Delivery>, d: Delivery, now: int): seq<Delivery> {
    TakeLast(Keep(items, UnexpiredOther(d.key, now)), MAX_ITEMS - 1) + [d]
  }

  function Readable(items: seq<Delivery>, now: int): seq<Delivery> {
    TakeLast(Keep(items, Unexpired(now)), MAX_ITEMS)
  }

  datatype Loaded = Loaded(items: seq<Delivery>, needsRewrite: bool)

  function Load(s: State, env: Env): Option<Loaded> {
    if s.writeFailed then None
    else match s.stored
      case None => Some(Loaded([], false))
      case Some(Clear(items)) => Some(Loaded(items, true))
      case Some(Sealed(items)) => if env.canOpen then Some(Loaded(items, false)) else None
      case Some(Undecodable) => None
  }

  function Persist(s: State, env: Env, items: seq<Delivery>, read: seq<Delivery>): (State, Outcome) {
    if !env.canSeal then (s, SealFailed)
    else if env.commits then (State(Some(Sealed(items)), false), Done(read))
    else (State(if env.landed then Some(Sealed(items)) else s.stored, true), CommitFailed)
  }

  /** The list an operation wants to leave behind. */
  function Next(items: seq<Delivery>, op: Op, now: int): seq<Delivery> {
    match op
    case Save(d) => Updated(items, d, now)
    case ReadAll => Readable(items, now)
    case Remove(key, version) => Keep(items, NotAcknowledged(key, version))
    case Erase => []
  }

  function Step(s: State, op: Op, env: Env): (State, Outcome) {
    if op.Erase? then
      if env.commits then (State(None, false), Done([]))
      else (State(if env.landed then None else s.stored, true), CommitFailed)
    else match Load(s, env)
      case None => (s, NeedsRecovery)
      case Some(Loaded(items, rewrite)) =>
        var next := Next(items, op, env.now);
        var read := if op.ReadAll? then next else [];
        if op.Save? || rewrite || |next| != |items| then Persist(s, env, next, read) else (s, Done(read))
  }

  /** The inbox as the source has it: one stored preference and the write latch. */
  class Inbox {
    var stored: Option<Blob>
    var writeFailed: bool

    function Contents(): State
      reads this
    {
      State(stored, writeFailed)
    }

    /** A process starts with what is on disk and an open latch. */
    constructor (disk: Option<Blob>)
      ensures Contents() == State(disk, false)
    {
      stored, writeFailed := disk, false;
    }

    method Commit(value: Option<Blob>, env: Env) returns (committed: bool)
      modifies this
      ensures committed == env.commits && writeFailed == !committed
      ensures stored == if env.commits || env.landed then value else old(stored)
    {
      committed := env.commits;
      if committed || env.landed {
        stored := value;
      }
      writeFailed := !committed;
    }

    method PersistItems(items: seq<Delivery>, read: seq<Delivery>, env: Env) returns (outcome: Outcome)
      modifies this
      ensures (Contents(), outcome) == Persist(old(Contents()), env, items, read)
    {
      if !env.canSeal {
        return SealFailed;
      }
      var committed := Commit(Some(Sealed(items)), env);
      outcome := if committed then Done(read) else CommitFailed;
    }

    method SaveDelivery(d: Delivery, env: Env) returns (outcome: Outcome)
      modifies this
      ensures (Contents(), outcome) == Step(old(Contents()), Save(d), env)
    {
      var loaded := Load(Contents(), env);
      if loaded.None? {
        return NeedsRecovery;
      }
      outcome := PersistItems(Updated(loaded.value.items, d, env.now), [], env);
    }

    method ReadDeliveries(env: Env) returns (outcome: Outcome)
      modifies this
      ensures (Contents(), outcome) == Step(old(Contents()), ReadAll, env)
    {
      var loaded := Load(Contents(), env);
      if loaded.None? {
        return NeedsRecovery;
      }
      var retained := Readable(loaded.value.items, env.now);
      outcome := Done(retained);
      if loaded.value.needsRewrite || |retained| != |loaded.value.items| {
        outcome := PersistItems(retained, retained, env);
      }
    }

    method Acknowledge(key: string, version: string, env: Env) returns (outcome: Outcome)
      modifies this
      ensures (Contents(), outcome) == Step(old(Contents()), Remove(key, version), env)
    {
      var loaded := Load(Contents(), env);
      if loaded.None? {
        return NeedsRecovery;
      }
      var retained := Keep(loaded.value.items, NotAcknowledged(key, version));
      outcome := Done([]);
      if loaded.value.needsRewrite || |retained| != |loaded.value.items| {
        outcome := PersistItems(retained, [], env);
      }
    }

    method EraseAll(env: Env) returns (outcome: Outcome)
      modifies this
      ensures (Contents(), outcome) == Step(old(Contents()), Erase, env)
    {
      var committed := Commit(None, env);
      outcome := if committed then Done([]) else CommitFailed;
    }
  }

  // ---- What a blob holds, and how list steps move one delivery ----

  function Held(s: State): seq<Delivery> {
    match s.stored
    case Some(Sealed(items)) => items
    case Some(Clear(items)) => items
    case _ => []
  }

  lemma {:induction false} KeepSplits(a: seq<Delivery>, b: seq<Delivery>, wanted: Delivery -> bool)
    ensures Keep(a + b, wanted) == Keep(a, wanted) + Keep(b, wanted)
  {
    if a == [] {
      assert a + b == b;
    } else {
      var first, rest := if wanted(a[0]) then [a[0]] else [], a[1..];
      assert (a + b)[0] == a[0] && (a + b)[1..] == rest + b;
      KeepSplits(rest, b, wanted);
      assert first + (Keep(rest, wanted) + Keep(b, wanted)) == (first + Keep(rest, wanted)) + Keep(b, wanted);
    }
  }

  /** Filtering keeps a wanted delivery, and what follows it is the filtered rest. */
  lemma KeepAt(items: seq<Delivery>, i: nat, wanted: Delivery -> bool)
    requires i < |items| && wanted(items[i])
    ensures
      var kept, rest := Keep(items, wanted), Keep(items[i + 1..], wanted);
      && |rest| < |kept| && kept[|kept| - 1 - |rest|] == items[i]
  {
    assert items == items[..i] + ([items[i]] + items[i + 1..]);
    KeepSplits(items[..i], [items[i]] + items[i + 1..], wanted);
    KeepSplits([items[i]], items[i + 1..], wanted);
  }

  lemma {:induction false} KeepSubset(items: seq<Delivery>, wanted: Delivery -> bool)
    ensures forall i :: 0 <= i < |Keep(items, wanted)| ==>
      Keep(items, wanted)[i] in items && wanted(Keep(items, wanted)[i])
  {
    if items != [] {
      KeepSubset(items[1..], wanted);
    }
  }

  ghost predicate KeysUnique(items: seq<Delivery>) {
    forall i, j :: 0 <= i < j < |items| ==> items[i].key != items[j].key
  }

  lemma {:induction false} KeepUnique(items: seq<Delivery>, wanted: Delivery -> bool)
    requires KeysUnique(items)
    ensures KeysUnique(Keep(items, wanted))
  {
    if items != [] {
      KeepUnique(items[1..], wanted);
      KeepSubset(items[1..], wanted);
      forall i | 0 <= i < |Keep(items[1..], wanted)|
        ensures Keep(items[1..], wanted)[i].key != items[0].key
      {
        var j :| 0 <= j < |items[1..]| && items[1..][j] == Keep(items[1..], wanted)[i];
        assert items[j + 1].key != items[0].key;
      }
    }
  }

  // ---- Why a delivery may leave ----

  /** The only ways position `i` of the list may be lost to an operation.  A capture
      evicts it when at least 99 later ones are kept beside the new one; a read when 100 are.  Seven days are 604800000
      milliseconds. */
  ghost predicate MayLose(items: seq<Delivery>, i: nat, op: Op, env: Env)
    requires i < |items|
  {
    var d := items[i];
    match op
    case Erase => true
    case Remove(key, version) => d.key == key && d.version == version
    case Save(n) =>
      || n.key == d.key
      || d.postedAt < env.now - 604800000
      || |Keep(items[i + 1..], UnexpiredOther(n.key, env.now))| >= 99
    case ReadAll =>
      || d.postedAt < env.now - 604800000
      || |Keep(items[i + 1..], Unexpired(env.now))| >= 100
  }

  /** An operation leaves either what was held or the list it wanted. */
  lemma StepHolds(s: State, op: Op, env: Env)
    ensures
      var after := Held(Step(s, op, env).0);
      after == Held(s) || after == Next(Held(s), op, env.now)
  {
  }

  lemma NextKeeps(items: seq<Delivery>, op: Op, env: Env, i: nat) returns (j: nat)
    requires i < |items| && !MayLose(items, i, op, env)
    ensures
      var next := Next(items, op, env.now);
      j < |next| && next[j] == items[i] && |next| - j <= |items| - i + if op.Save? then 1 else 0
  {
    var next := Next(items, op, env.now);
    match op
    case Remove(key, version) =>
      KeepAt(items, i, NotAcknowledged(key, version));
      j := |next| - 1 - |Keep(items[i + 1..], NotAcknowledged(key, version))|;
    case Save(n) =>
      KeepAt(items, i, UnexpiredOther(n.key, env.now));
      j := |next| - 2 - |Keep(items[i + 1..], UnexpiredOther(n.key, env.now))|;
    case ReadAll =>
      KeepAt(items, i, Unexpired(env.now));
      j := |next| - 1 - |Keep(items[i + 1..], Unexpired(env.now))|;
  }

  /** Main result 1, one step: a delivery that is not lost for one of those reasons is still
      held, with no more deliveries after it than before (one more after a capture). */
  lemma StepKeeps(s: State, op: Op, env: Env, i: nat) returns (j: nat)
    requires i < |Held(s)| && !MayLose(Held(s), i, op, env)
    ensures
      var after := Held(Step(s, op, env).0);
      j < |after| && after[j] == Held(s)[i] && |after| - j <= |Held(s)| - i + if op.Save? then 1 else 0
  {
    StepHolds(s, op, env);
    j := i;
    if Held(Step(s, op, env).0) != Held(s) {
      j := NextKeeps(Held(s), op, env, i);
    }
  }

  /** What falls out of the bound when the list is cut to its last `n`. */
  lemma CutOff(items: seq<Delivery>, wanted: Delivery -> bool, i: nat, n: nat)
    requires KeysUnique(items) && i < |items| && wanted(items[i])
    ensures items[i] in TakeLast(Keep(items, wanted), n) <==> |Keep(items[i + 1..], wanted)| < n
  {
    var kept, rest := Keep(items, wanted), Keep(items[i + 1..], wanted);
    var at := |kept| - 1 - |rest|;
    KeepAt(items, i, wanted);
    KeepUnique(items, wanted);
    LastHolds(kept, at, n);
  }

  lemma LastHolds(kept: seq<Delivery>, at: nat, n: nat)
    requires KeysUnique(kept) && at < |kept|
    ensures kept[at] in TakeLast(kept, n) <==> |kept| - 1 - at < n
  {
    var last := TakeLast(kept, n);
    if |kept| - 1 - at < n {
      assert last[|last| - (|kept| - at)] == kept[at];
    } else {
      forall j | 0 <= j < |last|
        ensures last[j].key != kept[at].key
      {
        assert kept[at].key != kept[|kept| - n + j].key;
      }
    }
  }

  lemma SaveIsExact(s: State, n: Delivery, env: Env, i: nat)
    requires KeysUnique(Held(s)) && i < |Held(s)| && Step(s, Save(n), env).1.Done? && n !in Held(s)
    ensures Held(s)[i] in Held(Step(s, Save(n), env).0) <==> !MayLose(Held(s), i, Save(n), env)
  {
    var items, wanted := Held(s), UnexpiredOther(n.key, env.now);
    KeepSubset(items, wanted);
    if wanted(items[i]) {
      CutOff(items, wanted, i, MAX_ITEMS - 1);
    }
  }

  lemma ReadIsExact(s: State, env: Env, i: nat)
    requires KeysUnique(Held(s)) && i < |Held(s)| && Step(s, ReadAll, env).1.Done?
    ensures Held(s)[i] in Held(Step(s, ReadAll, env).0) <==> !MayLose(Held(s), i, ReadAll, env)
  {
    ReadReturnsWhatIsHeld(s, env);
    KeepSubset(Held(s), Unexpired(env.now));
    if Unexpired(env.now)(Held(s)[i]) {
      CutOff(Held(s), Unexpired(env.now), i, MAX_ITEMS);
    }
  }

  /** The other half: when an operation succeeds, exactly the deliveries it may lose are lost. */
  lemma SuccessIsExact(s: State, op: Op, env: Env, i: nat)
    requires KeysUnique(Held(s)) && i < |Held(s)| && Step(s, op, env).1.Done?
    requires op.Save? ==> op.delivery !in Held(s)
    ensures Held(s)[i] in Held(Step(s, op, env).0) <==> !MayLose(Held(s), i, op, env)
  {
    match op
    case Erase =>
    case Remove(key, version) => AcknowledgementIsExact(s, key, version, env, Held(s)[i]);
    case Save(n) => SaveIsExact(s, n, env, i);
    case ReadAll => ReadIsExact(s, env, i);
  }

  /** A stale acknowledgement removes nothing but its own version. */
  lemma StaleAcknowledgementIsHarmless(s: State, key: string, version: string, env: Env, d: Delivery)
    requires d in Held(s) && (d.key == key ==> d.version != version)
    ensures d in Held(Step(s, Remove(key, version), env).0)
  {
    var i :| 0 <= i < |Held(s)| && Held(s)[i] == d;
    var j := StepKeeps(s, Remove(key, version), env, i);
  }

  /** An acknowledgement that reports success has removed its version and nothing else. */
  lemma AcknowledgementIsExact(s: State, key: string, version: string, env: Env, d: Delivery)
    requires Step(s, Remove(key, version), env).1.Done?
    ensures d in Held(Step(s, Remove(key, version), env).0)
       <==> d in Held(s) && !(d.key == key && d.version == version)
  {
    var wanted := NotAcknowledged(key, version);
    KeepSubset(Held(s), wanted);
    if d in Held(s) && wanted(d) {
      StaleAcknowledgementIsHarmless(s, key, version, env, d);
    }
    if |Keep(Held(s), wanted)| == |Held(s)| {
      KeepAllIsSame(Held(s), wanted);
    }
  }

  lemma {:induction false} KeepAllIsSame(items: seq<Delivery>, wanted: Delivery -> bool)
    requires |Keep(items, wanted)| == |items|
    ensures Keep(items, wanted) == items
  {
    if items != [] {
      KeepAllIsSame(items[1..], wanted);
    }
  }

  /** A read that succeeds returns exactly what is held afterwards. */
  lemma ReadReturnsWhatIsHeld(s: State, env: Env)
    requires Step(s, ReadAll, env).1.Done?
    ensures Step(s, ReadAll, env).1.read == Held(Step(s, ReadAll, env).0) == Readable(Held(s), env.now)
  {
    if |Readable(Held(s), env.now)| == |Held(s)| {
      KeepAllIsSame(Held(s), Unexpired(env.now));
    }
  }

  // ---- When an operation succeeds ----

  /** The latch is open, and there is nothing stored, clear text, or something that can be decrypted. */
  ghost predicate CanRead(s: State, env: Env) {
    !s.writeFailed && (s.stored.Some? ==> s.stored.value.Clear? || (s.stored.value.Sealed? && env.canOpen))
  }

  /** A capture always writes; so does any operation on clear text, and one that loses something. */
  ghost predicate MustWrite(s: State, op: Op, env: Env) {
    || op.Save?
    || (s.stored.Some? && s.stored.value.Clear?)
    || exists i :: 0 <= i < |Held(s)| && MayLose(Held(s), i, op, env)
  }

  lemma {:induction false} KeepsAllExactly(items: seq<Delivery>, wanted: Delivery -> bool)
    ensures |Keep(items, wanted)| == |items| <==> forall i :: 0 <= i < |items| ==> wanted(items[i])
  {
    if items != [] {
      KeepsAllExactly(items[1..], wanted);
      assert forall i :: 0 < i < |items| ==> items[i] == items[1..][i - 1];
    }
  }

  /** The length of the list tells whether anything is lost. */
  lemma NothingLostExactly(items: seq<Delivery>, op: Op, env: Env)
    requires op.Remove? || op.ReadAll?
    ensures |Next(items, op, env.now)| == |items| <==> forall i :: 0 <= i < |items| ==> !MayLose(items, i, op, env)
  {
    match op
    case Remove(key, version) => NothingAcknowledged(items, key, version, env);
    case ReadAll => NothingDropped(items, env);
  }

  lemma NothingAcknowledged(items: seq<Delivery>, key: string, version: string, env: Env)
    ensures |Keep(items, NotAcknowledged(key, version))| == |items|
       <==> forall i :: 0 <= i < |items| ==> !MayLose(items, i, Remove(key, version), env)
  {
    KeepsAllExactly(items, NotAcknowledged(key, version));
    forall i | 0 <= i < |items|
      ensures MayLose(items, i, Remove(key, version), env) <==> !NotAcknowledged(key, version)(items[i])
    {
    }
  }

  lemma NothingDropped(items: seq<Delivery>, env: Env)
    ensures |Readable(items, env.now)| == |items|
       <==> forall i :: 0 <= i < |items| ==> !MayLose(items, i, ReadAll, env)
  {
    var wanted := Unexpired(env.now);
    KeepsAllExactly(items, wanted);
    if i :| 0 <= i < |items| && !wanted(items[i]) {
      assert MayLose(items, i, ReadAll, env);
    } else if |items| > MAX_ITEMS {
      AllKept(items[1..], wanted);
      assert MayLose(items, 0, ReadAll, env);
    } else {
      forall i | 0 <= i < |items|
        ensures !MayLose(items, i, ReadAll, env)
      {
        assert |Keep(items[i + 1..], wanted)| <= |items| - i - 1;
      }
    }
  }

  lemma AllKept(items: seq<Delivery>, wanted: Delivery -> bool)
    requires forall i :: 0 <= i < |items| ==> wanted(items[i])
    ensures Keep(items, wanted) == items
  {
    KeepsAllExactly(items, wanted);
    KeepAllIsSame(items, wanted);
  }

  /** How every operation ends, whatever is stored and whatever the platform does.  An erase succeeds exactly if its
      commit does.  Any other operation succeeds exactly if the inbox can be read and, if it must write,
      encryption and the commit work; it then leaves the list it wanted, encrypted if it wrote, and otherwise
      what was stored, or that list if a commit that reported failure took effect. */
  lemma OutcomeExactly(s: State, op: Op, env: Env)
    ensures
      var (t, r) := Step(s, op, env);
      var writes := op.Erase? || MustWrite(s, op, env);
      var wanted := if op.Erase? then None else Some(Sealed(Next(Held(s), op, env.now)));
      && (r.Done? <==> (op.Erase? || CanRead(s, env)) && (writes ==> (op.Erase? || env.canSeal) && env.commits))
      && (r.Done? ==> t == State(if writes then wanted else s.stored, false))
      && (r == NeedsRecovery <==> !op.Erase? && !CanRead(s, env)) && (r == NeedsRecovery ==> t == s)
      && (r == SealFailed <==> !op.Erase? && CanRead(s, env) && writes && !env.canSeal) && (r == SealFailed ==> t == s)
      && (r == CommitFailed ==> t == State(if env.landed then wanted else s.stored, true))
  {
    if op.Remove? || op.ReadAll? {
      NothingLostExactly(Held(s), op, env);
    }
  }

  /** The first capture of a fresh inbox leaves exactly that delivery, whether or not decryption would work. */
  lemma FirstCaptureIsHeld(d: Delivery, env: Env)
    requires env.canSeal && env.commits
    ensures Step(Empty, Save(d), env) == (State(Some(Sealed([d])), false), Done([]))
    ensures Step(Empty, ReadAll, env) == (Empty, Done([]))
  {
    OutcomeExactly(Empty, Save(d), env);
    assert Updated([], d, env.now) == [d];
  }

  // ---- Runs ----

  datatype Event = Call(op: Op, env: Env) | Restart

  function AfterEvent(s: State, e: Event): State {
    match e
    case Call(op, env) => Step(s, op, env).0
    case Restart => State(s.stored, false)
  }

  function Run(s: State, events: seq<Event>): State
    decreases |events|
  {
    if events == [] then s else Run(AfterEvent(s, events[0]), events[1..])
  }

  function Captures(events: seq<Event>): nat {
    if events == [] then 0
    else (if events[0].Call? && events[0].op.Save? then 1 else 0) + Captures(events[1..])
  }

  /** Events that neither acknowledge this version, nor capture its key again, nor erase,
      nor look at the inbox after it has expired. */
  ghost predicate Spares(events: seq<Event>, d: Delivery) {
    forall k :: 0 <= k < |events| && events[k].Call? ==>
      match events[k].op
      case Erase => false
      case Remove(key, version) => d.key != key || d.version != version
      case Save(n) => n.key != d.key && d.postedAt >= events[k].env.now - RETENTION_MILLIS
      case ReadAll => d.postedAt >= events[k].env.now - RETENTION_MILLIS
  }

  /** The captures of a run, by their places. */
  function CapturePlaces(events: seq<Event>): set<int> {
    set k | 0 <= k < |events| && events[k].Call? && events[k].op.Save?
  }

  lemma {:induction false} CapturesOneMore(events: seq<Event>, e: Event)
    ensures Captures(events + [e]) == Captures(events) + if e.Call? && e.op.Save? then 1 else 0
  {
    if events == [] {
      assert events + [e] == [e] && Captures([e][1..]) == 0;
    } else {
      assert (events + [e])[1..] == events[1..] + [e];
      CapturesOneMore(events[1..], e);
    }
  }

  lemma {:induction false} CapturesAreCounted(events: seq<Event>)
    ensures Captures(events) == |CapturePlaces(events)|
  {
    if events != [] {
      var n := |events| - 1;
      var e := events[n];
      assert events == events[..n] + [e];
      CapturesAreCounted(events[..n]);
      CapturesOneMore(events[..n], e);
      assert CapturePlaces(events) == CapturePlaces(events[..n]) + if e.Call? && e.op.Save? then {n} else {};
    }
  }

  lemma {:induction false} SurvivesFrom(s: State, events: seq<Event>, i: nat)
    requires i < |Held(s)| && Spares(events, Held(s)[i])
    requires |Held(s)| - i + Captures(events) <= MAX_ITEMS
    ensures Held(s)[i] in Held(Run(s, events))
    decreases |events|
  {
    if events != [] {
      var j := i;
      if events[0].Call? {
        j := StepKeeps(s, events[0].op, events[0].env, i);
      }
      SurvivesFrom(AfterEvent(s, events[0]), events[1..], j);
    }
  }

  /** Main result 2, whole runs: a captured delivery is still there after any run that spares it
      and captures at most 99 others, whatever fails and however often the process restarts. */
  lemma CapturedDeliverySurvives(s: State, d: Delivery, env: Env, events: seq<Event>)
    requires Step(s, Save(d), env).1.Done?
    requires Spares(events, d) && |CapturePlaces(events)| <= 99
    ensures d in Held(Run(Step(s, Save(d), env).0, events))
  {
    var s' := Step(s, Save(d), env).0;
    CapturesAreCounted(events);
    SurvivesFrom(s', events, |Held(s')| - 1);
  }

  ghost predicate Bounded(s: State) {
    |Held(s)| <= 100 && KeysUnique(Held(s))
  }

  lemma NextBounded(items: seq<Delivery>, op: Op, now: int)
    requires KeysUnique(items)
    ensures KeysUnique(Next(items, op, now))
    ensures |items| <= MAX_ITEMS || op.Save? || op.ReadAll? ==> |Next(items, op, now)| <= MAX_ITEMS
  {
    match op
    case Erase =>
    case Remove(key, version) => KeepUnique(items, NotAcknowledged(key, version));
    case ReadAll => KeepUnique(items, Unexpired(now));
    case Save(n) =>
      KeepUnique(items, UnexpiredOther(n.key, now));
      KeepSubset(items, UnexpiredOther(n.key, now));
  }

  /** Keys stay unique, and a capture that succeeds leaves at most 100 deliveries even
      when it found more. */
  lemma StepBounded(s: State, op: Op, env: Env)
    requires KeysUnique(Held(s))
    ensures KeysUnique(Held(Step(s, op, env).0))
    ensures |Held(s)| <= MAX_ITEMS ==> |Held(Step(s, op, env).0)| <= MAX_ITEMS
    ensures op.Save? && Step(s, op, env).1.Done? ==> |Held(Step(s, op, env).0)| <= MAX_ITEMS
  {
    StepHolds(s, op, env);
    NextBounded(Held(s), op, env.now);
  }

  /** Over every run from an empty inbox: at most 100 deliveries, no two under one key. */
  lemma {:induction false} RunBounded(s: State, events: seq<Event>)
    requires Bounded(s)
    ensures Bounded(Run(s, events))
    decreases |events|
  {
    if events != [] {
      if events[0].Call? {
        StepBounded(s, events[0].op, events[0].env);
      }
      RunBounded(AfterEvent(s, events[0]), events[1..]);
    }
  }

  // ---- Fail-stop ----

  ghost predicate NoErase(events: seq<Event>) {
    forall k :: 0 <= k < |events| && events[k].Call? ==> !events[k].op.Erase?
  }

  ghost predicate NoRestart(events: seq<Event>) {
    forall k :: 0 <= k < |events| ==> events[k].Call?
  }

  /** What a run answers, call by call. */
  function Outcomes(s: State, events: seq<Event>): (r: seq<Option<Outcome>>)
    ensures |r| == |events|
    decreases |events|
  {
    if events == [] then []
    else
      var outcome := if events[0].Call? then Some(Step(s, events[0].op, events[0].env).1) else None;
      [outcome] + Outcomes(AfterEvent(s, events[0]), events[1..])
  }

  /** A blob nobody can decode is never replaced by anything but an erase, and until then
      every operation is refused, also after restarts. */
  lemma {:induction false} UndecodableIsPreserved(s: State, events: seq<Event>)
    requires s.stored == Some(Undecodable) && NoErase(events)
    ensures Run(s, events) == State(s.stored, s.writeFailed && NoRestart(events))
    ensures forall k :: 0 <= k < |events| ==>
      Outcomes(s, events)[k] == if events[k].Call? then Some(NeedsRecovery) else None
    decreases |events|
  {
    if events != [] {
      UndecodableIsPreserved(AfterEvent(s, events[0]), events[1..]);
      assert NoRestart(events) <==> events[0].Call? && NoRestart(events[1..]) by {
        assert forall k :: 0 < k < |events| ==> events[k] == events[1..][k - 1];
      }
    }
  }

  /** Nothing opens the latch: no restart, and no erase that commits. */
  ghost predicate KeepsLatched(events: seq<Event>) {
    forall k :: 0 <= k < |events| ==> events[k].Call? && (events[k].op.Erase? ==> !events[k].env.commits)
  }

  /** After a failed commit nothing but an erase is carried out until an erase commits or the process
      restarts.  A failing erase may have emptied the store, and that is all that can happen to it. */
  lemma {:induction false} FailedWriteLatches(s: State, events: seq<Event>)
    requires s.writeFailed && KeepsLatched(events)
    ensures Run(s, events).writeFailed
    ensures Run(s, events).stored == s.stored || Run(s, events).stored == None
    ensures NoErase(events) ==> Run(s, events) == s
    ensures forall k :: 0 <= k < |events| ==>
      Outcomes(s, events)[k] == Some(if events[k].op.Erase? then CommitFailed else NeedsRecovery)
    decreases |events|
  {
    if events != [] {
      FailedWriteLatches(AfterEvent(s, events[0]), events[1..]);
    }
  }

  /** The latch closes exactly on a commit that fails and opens exactly on one that succeeds. */
  lemma LatchFollowsCommits(s: State, op: Op, env: Env)
    ensures Step(s, op, env).1 == CommitFailed ==> Step(s, op, env).0.writeFailed
    ensures Step(s, op, env).0.writeFailed && !s.writeFailed ==> Step(s, op, env).1 == CommitFailed
    ensures s.writeFailed && !Step(s, op, env).0.writeFailed ==> op.Erase? && env.commits
  {
  }

  /** A clear-text inbox, whatever the platform does.  An operation succeeds exactly when what it has to
      write can be encrypted and is committed; it then leaves and answers what it would on the encrypted inbox
      with the same deliveries.  Otherwise the clear text is still there unchanged, or the commit that
      reported failure did replace it, and then by what the operation wanted, encrypted. */
  lemma ClearTextIsMigrated(items: seq<Delivery>, op: Op, env: Env)
    ensures
      var s := State(Some(Clear(items)), false);
      var (t, r) := Step(s, op, env);
      var wanted := if op.Erase? then None else Some(Sealed(Next(items, op, env.now)));
      && (r.Done? <==> env.commits && (op.Erase? || env.canSeal))
      && (r.Done? ==>
            (t, r) == Step(State(Some(Sealed(items)), false), op, env.(canOpen := true)) && t == State(wanted, false))
      && (!r.Done? ==> t.stored == s.stored || (r == CommitFailed && env.landed && t.stored == wanted))
      && (r == SealFailed ==> t == s) && (r == CommitFailed ==> t.writeFailed)
  {
    match op
    case ReadAll =>
      if |Readable(items, env.now)| == |items| {
        KeepAllIsSame(items, Unexpired(env.now));
      }
    case Remove(key, version) =>
      if |Keep(items, NotAcknowledged(key, version))| == |items| {
        KeepAllIsSame(items, NotAcknowledged(key, version));
      }
    case _ =>
  }
}
