/** The sync loop over sources and posts, with its report.

    Any operation of the loop may raise; a post is then broken off between two transactions,
    the rest of its source is skipped and the next source goes on.  Which operations raise
    is decided by a parameter, so the results hold for every pattern of failures. */
module DealsPipeline {
  import opened Common
  import opened DealsExtractor
  import opened DealsStorage
  import opened DealsHistory

  /** What fetching a source gave: its posts, or nothing when there is no provider for it
      or the provider raised. */
  datatype Source = Source(name: string, fetched: Option<seq<Message>>)

  datatype Report = Report(
    sourcesProcessed: nat,
    sourcesFailed: nat,
    messagesSeen: nat,
    newMessages: nat,
    filteredMessages: nat,
    offersCreated: nat,
    duplicatesFound: nat,
    errors: seq<string>)

  const Blank := Report(0, 0, 0, 0, 0, 0, 0, [])

  // ---- What the counters should be ----

  /** How many of the transactions created an offer row. */
  ghost function Creations(db: Db, txs: seq<Tx>): nat {
    if txs == [] then 0
    else
      var before, last := txs[..|txs| - 1], txs[|txs| - 1];
      Creations(db, before) + Creates(ApplyAll(db, before), last)
  }

  ghost function Creates(db: Db, tx: Tx): nat {
    if tx.OfferTx? && SaveOffer(db, tx.o).1 == Created then 1 else 0
  }

  /** One post's turn in the loop: the attempt, the transactions it made, whether it came to its end,
      and whether and with how many offers its version of the post is accepted. */
  datatype Turn = Turn(attempt: Attempt, txs: seq<Tx>, complete: bool, accepted: bool, offers: nat)

  ghost predicate IsTurn(rules: Rules, t: Turn) {
    && t.txs == Done(rules, t.attempt) && (t.complete <==> IsComplete(rules, t.attempt))
    && t.accepted == rules.accepts(t.attempt.m) && t.offers == |KeysOf(rules, t.attempt.m)|
  }

  ghost predicate AreTurns(rules: Rules, turns: seq<Turn>) {
    forall i {:trigger IsTurn(rules, turns[i])} :: 0 <= i < |turns| ==> IsTurn(rules, turns[i])
  }

  function Txs(turns: seq<Turn>): seq<Tx> {
    if turns == [] then [] else Txs(turns[..|turns| - 1]) + turns[|turns| - 1].txs
  }

  function Attempts(turns: seq<Turn>): seq<Attempt> {
    if turns == [] then [] else Attempts(turns[..|turns| - 1]) + [turns[|turns| - 1].attempt]
  }

  function TurnOffers(turns: seq<Turn>): nat {
    if turns == [] then 0 else TurnOffers(turns[..|turns| - 1]) + turns[|turns| - 1].offers
  }

  function TurnRejections(turns: seq<Turn>): nat {
    if turns == [] then 0
    else TurnRejections(turns[..|turns| - 1]) + if turns[|turns| - 1].accepted then 0 else 1
  }

  function PostsIn(source: Source): seq<Message> {
    if source.fetched.Some? then source.fetched.value else []
  }

  function PostsOf(sources: seq<Source>): seq<Message> {
    if sources == [] then []
    else
      PostsOf(sources[..|sources| - 1]) + PostsIn(sources[|sources| - 1])
  }

  function FetchedCount(sources: seq<Source>): nat {
    if sources == [] then 0
    else FetchedCount(sources[..|sources| - 1]) + if sources[|sources| - 1].fetched.Some? then 1 else 0
  }

  function OfferTotal(rules: Rules, posts: seq<Message>): nat {
    if posts == [] then 0
    else OfferTotal(rules, posts[..|posts| - 1]) + |KeysOf(rules, posts[|posts| - 1])|
  }

  function RejectedCount(rules: Rules, posts: seq<Message>): nat {
    if posts == [] then 0
    else RejectedCount(rules, posts[..|posts| - 1]) + if rules.accepts(posts[|posts| - 1]) then 0 else 1
  }

  /** The turns went through the posts one by one and completed each. */
  ghost predicate Covers(turns: seq<Turn>, posts: seq<Message>) {
    Messages(turns) == posts && forall i :: 0 <= i < |turns| ==> turns[i].complete
  }

  function Messages(turns: seq<Turn>): (posts: seq<Message>)
    ensures |posts| == |turns|
  {
    if turns == [] then [] else Messages(turns[..|turns| - 1]) + [turns[|turns| - 1].attempt.m]
  }

  lemma {:induction false} MessagesSplit(a: seq<Turn>, b: seq<Turn>)
    ensures Messages(a + b) == Messages(a) + Messages(b)
  {
    if b == [] {
      assert a + b == a;
    } else {
      assert (a + b)[..|a + b| - 1] == a + b[..|b| - 1];
      MessagesSplit(a, b[..|b| - 1]);
    }
  }

  // ---- What a stretch of the run did to the report ----

  /** A report after one post: no more new posts were counted than rows came to exist, except for
      a post that was broken off; offers created are rows created; and unless the post was
      broken off, its extracted offers and its rejection are counted. */
  ghost predicate Counted(offers: nat, rejections: nat, r0: Report, r: Report,
                          growth: int, created: nat, raised: bool) {
    && r == r0.(newMessages := r.newMessages, filteredMessages := r.filteredMessages,
                offersCreated := r.offersCreated, duplicatesFound := r.duplicatesFound)
    && growth <= r.newMessages - r0.newMessages <= growth + (if raised then 1 else 0)
    && r.offersCreated == r0.offersCreated + created
    && (!raised ==>
          && r.offersCreated + r.duplicatesFound == r0.offersCreated + r0.duplicatesFound + offers
          && r.filteredMessages == r0.filteredMessages + rejections)
  }

  ghost predicate PostCounted(rules: Rules, m: Message, r0: Report, r: Report,
                              growth: int, created: nat, raised: bool) {
    Counted(|KeysOf(rules, m)|, if rules.accepts(m) then 0 else 1, r0, r, growth, created, raised)
  }

  ghost predicate TurnsCounted(turns: seq<Turn>, r0: Report, r: Report, growth: int, created: nat, raised: bool) {
    Counted(TurnOffers(turns), TurnRejections(turns), r0, r, growth, created, raised)
  }

  /** A report after some sources: each was processed, failed or both, there is one error for each failure,
      only posts that were fetched had turns, and if none failed the turns covered all posts and the
      totals are exact. */
  ghost predicate SourcesCounted(sources: seq<Source>, turns: seq<Turn>, r0: Report,
                                 r: Report, growth: int, created: nat) {
    var failed := r.sourcesFailed - r0.sourcesFailed;
    && r.sourcesProcessed == r0.sourcesProcessed + FetchedCount(sources)
    && |sources| - FetchedCount(sources) <= failed <= |sources|
    && |r.errors| == |r0.errors| + failed
    && r.messagesSeen == r0.messagesSeen + |PostsOf(sources)|
    && multiset(Messages(turns)) <= multiset(PostsOf(sources))
    && growth <= r.newMessages - r0.newMessages <= growth + failed
    && r.offersCreated == r0.offersCreated + created
    && (failed == 0 ==>
          && Covers(turns, PostsOf(sources))
          && r.offersCreated + r.duplicatesFound == r0.offersCreated + r0.duplicatesFound + TurnOffers(turns)
          && r.filteredMessages == r0.filteredMessages + TurnRejections(turns))
  }

  lemma MoreTurnsCounted(a: seq<Turn>, b: seq<Turn>, r0: Report, r1: Report, r2: Report,
                         g1: int, g2: int, c1: nat, c2: nat, raised: bool)
    requires TurnsCounted(a, r0, r1, g1, c1, false) && TurnsCounted(b, r1, r2, g2, c2, raised)
    ensures TurnsCounted(a + b, r0, r2, g1 + g2, c1 + c2, raised)
  {
    TotalsSplit(a, b);
  }

  lemma MoreSourcesCounted(a: seq<Source>, source: Source, before: seq<Turn>, more: seq<Turn>,
                           r0: Report, r1: Report, r2: Report, g1: int, g2: int, c1: nat, c2: nat)
    requires SourcesCounted(a, before, r0, r1, g1, c1)
    requires SourcesCounted([source], more, r1, r2, g2, c2)
    ensures SourcesCounted(a + [source], before + more, r0, r2, g1 + g2, c1 + c2)
  {
    OneMoreSource(a, source);
    OneSource(source);
    MessagesSplit(before, more);
    TotalsSplit(before, more);
    CoversBoth(before, more, PostsOf(a), PostsIn(source));
  }

  lemma PrefixCounts(a: seq<Message>, b: seq<Message>)
    requires a <= b
    ensures multiset(a) <= multiset(b)
  {
    assert b == a + b[|a|..];
  }

  lemma OneMoreSource(a: seq<Source>, source: Source)
    ensures FetchedCount(a + [source]) == FetchedCount(a) + if source.fetched.Some? then 1 else 0
    ensures PostsOf(a + [source]) == PostsOf(a) + PostsIn(source)
  {
    var all := a + [source];
    assert all[..|all| - 1] == a && all[|all| - 1] == source;
  }

  lemma OneSource(source: Source)
    ensures FetchedCount([source]) == if source.fetched.Some? then 1 else 0
    ensures PostsOf([source]) == PostsIn(source)
  {
    assert [] + [source] == [source];
    OneMoreSource([], source);
    assert [] + PostsIn(source) == PostsIn(source);
  }

  lemma CoversBoth(a: seq<Turn>, b: seq<Turn>, posts: seq<Message>, more: seq<Message>)
    ensures Covers(a, posts) && Covers(b, more) ==> Covers(a + b, posts + more)
  {
    MessagesSplit(a, b);
  }

  lemma {:induction false} TotalsSplit(a: seq<Turn>, b: seq<Turn>)
    ensures TurnOffers(a + b) == TurnOffers(a) + TurnOffers(b)
    ensures TurnRejections(a + b) == TurnRejections(a) + TurnRejections(b)
  {
    if b == [] {
      assert a + b == a;
    } else {
      assert (a + b)[..|a + b| - 1] == a + b[..|b| - 1];
      TotalsSplit(a, b[..|b| - 1]);
    }
  }

  /** The totals of genuine turns are those of their posts. */
  lemma {:induction false} TurnsTell(rules: Rules, turns: seq<Turn>)
    requires AreTurns(rules, turns)
    ensures TurnOffers(turns) == OfferTotal(rules, Messages(turns))
    ensures TurnRejections(turns) == RejectedCount(rules, Messages(turns))
  {
    if turns != [] {
      var front, last := turns[..|turns| - 1], turns[|turns| - 1];
      LastTurnTells(rules, turns);
      TurnsTell(rules, front);
      OneMorePost(rules, Messages(front), last.attempt.m);
      assert Messages(turns) == Messages(front) + [last.attempt.m];
    }
  }

  lemma FrontAreTurns(rules: Rules, turns: seq<Turn>)
    requires AreTurns(rules, turns) && turns != []
    ensures AreTurns(rules, turns[..|turns| - 1]) && IsTurn(rules, turns[|turns| - 1])
  {
    var front := turns[..|turns| - 1];
    forall i | 0 <= i < |front|
      ensures IsTurn(rules, front[i])
    {
      assert IsTurn(rules, turns[i]);
    }
  }

  lemma LastTurnTells(rules: Rules, turns: seq<Turn>)
    requires AreTurns(rules, turns) && turns != []
    ensures AreTurns(rules, turns[..|turns| - 1])
    ensures
      var last := turns[|turns| - 1];
      last.accepted == rules.accepts(last.attempt.m) && last.offers == |KeysOf(rules, last.attempt.m)|
  {
    FrontAreTurns(rules, turns);
  }

  lemma OneMorePost(rules: Rules, posts: seq<Message>, m: Message)
    ensures OfferTotal(rules, posts + [m]) == OfferTotal(rules, posts) + |KeysOf(rules, m)|
    ensures RejectedCount(rules, posts + [m]) == RejectedCount(rules, posts) + if rules.accepts(m) then 0 else 1
  {
    var all := posts + [m];
    assert all[..|all| - 1] == posts && all[|all| - 1] == m;
  }

  // ---- Runs put together ----

  /** One transaction more of a plan. */
  lemma OneMoreTx(db: Db, plan: seq<Tx>, n: nat)
    requires n < |plan|
    ensures ApplyAll(db, plan[..n + 1]) == Apply(ApplyAll(db, plan[..n]), plan[n])
    ensures Creations(db, plan[..n + 1]) == Creations(db, plan[..n])
         + Creates(ApplyAll(db, plan[..n]), plan[n])
  {
    var longer := plan[..n + 1];
    assert longer[..|longer| - 1] == plan[..n] && longer[|longer| - 1] == plan[n];
  }

  lemma FirstSteps(db: Db, plan: seq<Tx>, m: Message, status: Status)
    requires |plan| >= 2 && plan[0] == PrepareTx(m.ident) && plan[1] == MessageTx(m, status)
    ensures ApplyAll(db, plan[..0]) == db && Creations(db, plan[..0]) == 0
    ensures ApplyAll(db, plan[..1]) == Prepare(db, m.ident) && Creations(db, plan[..1]) == 0
    ensures ApplyAll(db, plan[..2]) == SaveMessage(Prepare(db, m.ident), m, status) && Creations(db, plan[..2]) == 0
  {
    OneMoreTx(db, plan, 0);
    OneMoreTx(db, plan, 1);
  }

  lemma CreationsLast(db: Db, txs: seq<Tx>, tx: Tx)
    ensures Creations(db, txs + [tx]) == Creations(db, txs) + Creates(ApplyAll(db, txs), tx)
  {
    var all := txs + [tx];
    assert all[..|all| - 1] == txs && all[|all| - 1] == tx;
  }

  lemma {:induction false} CreationsSplit(db: Db, a: seq<Tx>, b: seq<Tx>)
    ensures Creations(db, a + b) == Creations(db, a) + Creations(ApplyAll(db, a), b)
  {
    if b == [] {
      assert a + b == a;
    } else {
      var front, tx := b[..|b| - 1], b[|b| - 1];
      assert b == front + [tx] && a + b == (a + front) + [tx];
      CreationsSplit(db, a, front);
      ApplyAllSplits(db, a, front);
      CreationsLast(db, a + front, tx);
      CreationsLast(ApplyAll(db, a), front, tx);
    }
  }

  lemma {:induction false} TxsSplit(a: seq<Turn>, b: seq<Turn>)
    ensures Txs(a + b) == Txs(a) + Txs(b)
  {
    if b == [] {
      assert a + b == a;
    } else {
      var all, front := a + b, b[..|b| - 1];
      assert all[..|all| - 1] == a + front && all[|all| - 1] == b[|b| - 1];
      TxsSplit(a, front);
    }
  }

  lemma TurnsBoth(rules: Rules, a: seq<Turn>, b: seq<Turn>)
    requires AreTurns(rules, a) && AreTurns(rules, b)
    ensures AreTurns(rules, a + b)
  {
    forall i | 0 <= i < |a + b|
      ensures IsTurn(rules, (a + b)[i])
    {
      if i < |a| {
        assert IsTurn(rules, a[i]);
      } else {
        assert IsTurn(rules, b[i - |a|]);
      }
    }
  }

  /** The histories of DealsHistory go on with the turns of a sync. */
  lemma {:induction false} SyncContinuesHistory(rules: Rules, past: seq<Attempt>, turns: seq<Turn>)
    requires AreTurns(rules, turns)
    ensures Run(rules, past + Attempts(turns)) == ApplyAll(Run(rules, past), Txs(turns))
  {
    if turns == [] {
      assert past + [] == past;
    } else {
      var front, last := turns[..|turns| - 1], turns[|turns| - 1];
      assert turns == front + [last];
      FrontAreTurns(rules, turns);
      SyncContinuesHistory(rules, past, front);
      OneMoreTurn(rules, past, front, last);
    }
  }

  lemma LastTurn(front: seq<Turn>, last: Turn)
    ensures Attempts(front + [last]) == Attempts(front) + [last.attempt]
    ensures Txs(front + [last]) == Txs(front) + last.txs
  {
    var all := front + [last];
    assert all[..|all| - 1] == front && all[|all| - 1] == last;
  }

  lemma Regroup(past: seq<Attempt>, a: seq<Attempt>, b: seq<Attempt>)
    ensures past + (a + b) == past + a + b
  {
  }

  lemma OneMoreTurn(rules: Rules, past: seq<Attempt>, front: seq<Turn>, last: Turn)
    requires IsTurn(rules, last)
    requires Run(rules, past + Attempts(front)) == ApplyAll(Run(rules, past), Txs(front))
    ensures Run(rules, past + Attempts(front + [last])) == ApplyAll(Run(rules, past), Txs(front + [last]))
  {
    LastTurn(front, last);
    Regroup(past, Attempts(front), [last.attempt]);
    RunOneMore(rules, past + Attempts(front), last.attempt);
    ApplyAllSplits(Run(rules, past), Txs(front), last.txs);
  }

  lemma RunOneMore(rules: Rules, past: seq<Attempt>, a: Attempt)
    ensures Run(rules, past + [a]) == ApplyAll(Run(rules, past), Done(rules, a))
  {
    var all := past + [a];
    assert all[..|all| - 1] == past && all[|all| - 1] == a;
  }

  // ---- What complete turns leave behind ----

  /** The version of a post that comes last in a list of posts read. */
  function LastVersion(posts: seq<Message>, post: Ident): Option<Message> {
    if posts == [] then None
    else
      var last := posts[|posts| - 1];
      if last.ident == post then Some(last) else LastVersion(posts[..|posts| - 1], post)
  }

  /** A post that was read is stored in its last version, with the status it has, and linked to exactly the keys
      of that version under its address; a post that was not read keeps its row and its links. */
  ghost predicate PostUpToDate(rules: Rules, db: Db, db': Db, posts: seq<Message>, post: Ident) {
    match LastVersion(posts, post)
    case Some(m) =>
      && LinksAre(rules.hash, db', post, KeysOf(rules, m)) && UrlsAre(db', post, m.url)
      && post in db'.messages && db'.messages[post] == MessageRow(m, StatusFor(rules, m))
    case None =>
      && (forall id :: (id, post) in db'.links <==> (id, post) in db.links)
      && (forall id :: (id, post) in db.links ==> db'.links[(id, post)] == db.links[(id, post)])
      && (post in db'.messages <==> post in db.messages)
      && (post in db.messages ==> db'.messages[post] == db.messages[post])
  }

  ghost predicate UpToDate(rules: Rules, db: Db, db': Db, posts: seq<Message>) {
    forall post :: PostUpToDate(rules, db, db', posts, post)
  }

  lemma CompleteAttemptLinks(rules: Rules, db: Db, a: Attempt)
    requires Injective(rules.hash) && Consistent(rules.hash, db) && IsComplete(rules, a)
    ensures
      var db' := ApplyAll(db, Done(rules, a));
      && Consistent(rules.hash, db')
      && LinksAre(rules.hash, db', a.m.ident, KeysOf(rules, a.m)) && UrlsAre(db', a.m.ident, a.m.url)
      && OthersLinked(db, db', a.m.ident)
      && db'.messages == db.messages[a.m.ident := MessageRow(a.m, StatusFor(rules, a.m))]
  {
    AttemptLinks(rules, db, a);
    PlanIsPlan(rules, a.m, a.now);
    assert KeysDone(rules, a) == KeysOf(rules, a.m);
  }

  lemma CompleteTurnLinks(rules: Rules, db: Db, db': Db, posts: seq<Message>, t: Turn)
    requires Injective(rules.hash) && Consistent(rules.hash, db') && UpToDate(rules, db, db', posts)
    requires IsTurn(rules, t) && t.complete
    ensures
      var db2 := ApplyAll(db', t.txs);
      Consistent(rules.hash, db2) && UpToDate(rules, db, db2, posts + [t.attempt.m])
  {
    var m, db2, all := t.attempt.m, ApplyAll(db', t.txs), posts + [t.attempt.m];
    CompleteAttemptLinks(rules, db', t.attempt);
    assert all[..|all| - 1] == posts && all[|all| - 1] == m;
    forall post
      ensures PostUpToDate(rules, db, db2, all, post)
    {
      assert PostUpToDate(rules, db, db', posts, post);
      if post != m.ident && LastVersion(posts, post).Some? {
        var last := LastVersion(posts, post).value;
        OtherPostsKeepLinks(rules.hash, db', db2, m.ident, post, KeysOf(rules, last), last.url);
      }
    }
  }

  /** Complete turns bring every post they read up to date, from whatever consistent tables. */
  lemma {:induction false} CompleteTurnsLink(rules: Rules, db: Db, turns: seq<Turn>)
    requires Injective(rules.hash) && Consistent(rules.hash, db) && AreTurns(rules, turns)
    requires forall i :: 0 <= i < |turns| ==> turns[i].complete
    ensures
      var db' := ApplyAll(db, Txs(turns));
      Consistent(rules.hash, db') && UpToDate(rules, db, db', Messages(turns))
  {
    if turns != [] {
      var front, last := turns[..|turns| - 1], turns[|turns| - 1];
      FrontAreTurns(rules, turns);
      CompleteTurnsLink(rules, db, front);
      ApplyAllSplits(db, Txs(front), last.txs);
      CompleteTurnLinks(rules, db, ApplyAll(db, Txs(front)), Messages(front), last);
    }
  }

  /** Everything a stretch of the run over some posts promises: the tables went from `db` to `db'` by the
      transactions of the turns, and the report from `r0` to `r`. */
  ghost predicate PostsSynced(rules: Rules, posts: seq<Message>, db: Db, db': Db, r0: Report, r: Report,
                              turns: seq<Turn>, raised: bool) {
    var txs := Txs(turns);
    && db' == ApplyAll(db, txs) && Consistent(rules.hash, db') && AreTurns(rules, turns)
    && (if raised then Messages(turns) <= posts else Covers(turns, posts))
    && TurnsCounted(turns, r0, r, |db'.messages| - |db.messages|, Creations(db, txs), raised)
  }

  ghost predicate SourcesSynced(rules: Rules, sources: seq<Source>, db: Db, db': Db, r0: Report, r: Report,
                                turns: seq<Turn>) {
    var txs := Txs(turns);
    && db' == ApplyAll(db, txs) && Consistent(rules.hash, db') && AreTurns(rules, turns)
    && SourcesCounted(sources, turns, r0, r, |db'.messages| - |db.messages|, Creations(db, txs))
  }

  lemma NothingSynced(rules: Rules, db: Db, r: Report)
    requires Consistent(rules.hash, db)
    ensures PostsSynced(rules, [], db, db, r, r, [], false)
    ensures SourcesSynced(rules, [], db, db, r, r, [])
  {
  }

  lemma MorePostsSynced(rules: Rules, a: seq<Message>, b: seq<Message>, db0: Db, db1: Db, db2: Db,
                        r0: Report, r1: Report, r2: Report, before: seq<Turn>, more: seq<Turn>, raised: bool)
    requires PostsSynced(rules, a, db0, db1, r0, r1, before, false)
    requires PostsSynced(rules, b, db1, db2, r1, r2, more, raised)
    ensures PostsSynced(rules, a + b, db0, db2, r0, r2, before + more, raised)
  {
    TxsSplit(before, more);
    TurnsBoth(rules, before, more);
    var first, second := Txs(before), Txs(more);
    ApplyAllSplits(db0, first, second);
    CreationsSplit(db0, first, second);
    CoversBoth(before, more, a, b);
    MessagesSplit(before, more);
    MoreTurnsCounted(before, more, r0, r1, r2, |db1.messages| - |db0.messages|, |db2.messages| - |db1.messages|,
                     Creations(db0, first), Creations(db1, second), raised);
  }

  lemma MoreSourcesSynced(rules: Rules, a: seq<Source>, source: Source, db0: Db, db1: Db, db2: Db,
                          r0: Report, r1: Report, r2: Report, before: seq<Turn>, more: seq<Turn>)
    requires SourcesSynced(rules, a, db0, db1, r0, r1, before)
    requires SourcesSynced(rules, [source], db1, db2, r1, r2, more)
    ensures SourcesSynced(rules, a + [source], db0, db2, r0, r2, before + more)
  {
    TxsSplit(before, more);
    TurnsBoth(rules, before, more);
    var first, second := Txs(before), Txs(more);
    ApplyAllSplits(db0, first, second);
    CreationsSplit(db0, first, second);
    MoreSourcesCounted(a, source, before, more, r0, r1, r2,
                       |db1.messages| - |db0.messages|, |db2.messages| - |db1.messages|,
                       Creations(db0, first), Creations(db1, second));
  }

  /** One post, with the transactions of its plan that were done. */
  ghost predicate PlanDone(rules: Rules, m: Message, plan: seq<Tx>, done: nat, db: Db, db': Db,
                           r0: Report, r: Report, raised: bool) {
    && done <= |plan| && (!raised ==> done == |plan|)
    && db' == ApplyAll(db, plan[..done]) && Consistent(rules.hash, db')
    && PostCounted(rules, m, r0, r, |db'.messages| - |db.messages|, Creations(db, plan[..done]), raised)
  }

  function TurnOf(rules: Rules, m: Message, now: Time, done: nat): Turn {
    var a := Attempt(m, now, done);
    Turn(a, Done(rules, a), IsComplete(rules, a), rules.accepts(m), |KeysOf(rules, m)|)
  }

  lemma OneTurn(t: Turn)
    ensures Txs([t]) == t.txs && Messages([t]) == [t.attempt.m]
    ensures TurnOffers([t]) == t.offers && TurnRejections([t]) == if t.accepted then 0 else 1
  {
    assert [t][..0] == [] && [] + t.txs == t.txs;
  }

  lemma PlanDoneIsSynced(rules: Rules, m: Message, now: Time, done: nat, db: Db, db': Db,
                         r0: Report, r: Report, raised: bool)
    requires PlanDone(rules, m, Plan(rules, m, now), done, db, db', r0, r, raised)
    ensures PostsSynced(rules, [m], db, db', r0, r, [TurnOf(rules, m, now, done)], raised)
  {
    OneTurn(TurnOf(rules, m, now, done));
    assert IsTurn(rules, [TurnOf(rules, m, now, done)][0]);
  }

  /** Part of a post's offers was saved: created and duplicate ones are counted, nothing else. */
  ghost predicate OffersSaved(r0: Report, r: Report, db: Db, db': Db, plan: seq<Tx>, done: nat) {
    && 2 <= done <= |plan|
    && db' == ApplyAll(db, plan[..done])
    && r == r0.(offersCreated := r.offersCreated, duplicatesFound := r.duplicatesFound)
    && r.offersCreated == r0.offersCreated + Creations(db, plan[..done])
    && r.offersCreated + r.duplicatesFound == r0.offersCreated + r0.duplicatesFound + done - 2
  }

  lemma SaveNeverCollides(hash: string -> string, db: Db, o: Offer)
    requires Injective(hash) && Consistent(hash, db) && o.id == hash(o.dedupeKey)
    ensures UniqueKeys(db) && SaveOffer(db, o).1 != IntegrityError && Consistent(hash, SaveOffer(db, o).0)
  {
    ConsistentKeysUnique(hash, db);
    SaveOfferKeeps(hash, db, o);
  }

  lemma OneMoreSave(r0: Report, r1: Report, r: Report, db: Db, db1: Db, db': Db,
                    plan: seq<Tx>, done: nat, outcome: SaveOutcome)
    requires OffersSaved(r0, r1, db, db1, plan, done) && done < |plan|
    requires plan[done].OfferTx? && (db', outcome) == SaveOffer(db1, plan[done].o)
    requires r == if outcome == Created then r1.(offersCreated := r1.offersCreated + 1)
                  else r1.(duplicatesFound := r1.duplicatesFound + 1)
    ensures OffersSaved(r0, r, db, db', plan, done + 1)
  {
    OneMoreTx(db, plan, done);
  }

  /** What is promised of a turn after the post was detached. */
  ghost predicate RestDone(rules: Rules, m: Message, plan: seq<Tx>, done: nat, db: Db, db': Db,
                           r0: Report, r: Report, raised: bool) {
    && 1 <= done <= |plan| && (!raised ==> done == |plan|) && |plan| >= 2
    && db' == ApplyAll(db, plan[..done]) && Consistent(rules.hash, db')
    && |db'.messages| == |db.messages| + (if done >= 2 && m.ident !in db.messages then 1 else 0)
    && PostCounted(rules, m, r0, r, 0, Creations(db, plan[..done]), raised) && r.newMessages == r0.newMessages
  }

  /** Counting a post that has no row yet, and then storing the row, keeps the count of new posts right. */
  lemma NewRowCounted(rules: Rules, m: Message, plan: seq<Tx>, done: nat, db: Db, db': Db,
                      r0: Report, r1: Report, r: Report, raised: bool)
    requires r1 == if m.ident in db.messages then r0 else r0.(newMessages := r0.newMessages + 1)
    requires RestDone(rules, m, plan, done, db, db', r1, r, raised)
    ensures PlanDone(rules, m, plan, done, db, db', r0, r, raised)
  {
  }

  /** A failure leaves the rest of the posts. */
  lemma RestIsLeft(rules: Rules, a: seq<Message>, b: seq<Message>, db: Db, db': Db, r0: Report, r: Report,
                       turns: seq<Turn>)
    requires PostsSynced(rules, a, db, db', r0, r, turns, true) && a <= b
    ensures PostsSynced(rules, b, db, db', r0, r, turns, true)
  {
  }

  /** The plan of an accepted post, with the offers extracted from it. */
  ghost predicate SavesOffers(rules: Rules, plan: seq<Tx>, m: Message, offers: seq<Offer>) {
    && EndsWithSaves(rules.hash, plan, offers) && |offers| == |KeysOf(rules, m)|
    && plan[0] == PrepareTx(m.ident) && plan[1] == MessageTx(m, StatusOf(offers))
  }

  ghost predicate EndsWithSaves(hash: string -> string, plan: seq<Tx>, offers: seq<Offer>) {
    && |plan| == 2 + |offers|
    && forall i :: 0 <= i < |offers| ==> plan[2 + i] == OfferTx(offers[i]) && offers[i].id == hash(offers[i].dedupeKey)
  }

  lemma PlanSavesOffers(rules: Rules, m: Message, now: Time)
    requires rules.accepts(m)
    ensures SavesOffers(rules, Plan(rules, m, now), m, OffersOf(rules, m, now))
  {
    var offers, plan := OffersOf(rules, m, now), Plan(rules, m, now);
    forall i | 0 <= i < |offers|
      ensures plan[2 + i] == OfferTx(offers[i]) && offers[i].id == rules.hash(offers[i].dedupeKey)
    {
      assert plan[2 + i] == Saves(offers)[i];
    }
  }

  /** A turn broken off between the detachment and the storing of the row. */
  lemma BrokenOff(rules: Rules, m: Message, now: Time, plan: seq<Tx>, db: Db, r: Report)
    requires plan == Plan(rules, m, now) && Consistent(rules.hash, Prepare(db, m.ident))
    ensures RestDone(rules, m, plan, 1, db, Prepare(db, m.ident), r, r, true)
  {
    FirstSteps(db, plan, m, plan[1].status);
  }

  lemma OffersSavedIsRest(rules: Rules, m: Message, offers: seq<Offer>, plan: seq<Tx>, done: nat, db: Db, db': Db,
                          r0: Report, r: Report, raised: bool)
    requires |plan| == 2 + |offers| && |offers| == |KeysOf(rules, m)| && rules.accepts(m)
    requires OffersSaved(r0, r, db, db', plan, done) && (!raised ==> done == |plan|)
    requires Consistent(rules.hash, db')
    requires |db'.messages| == |db.messages| + (if m.ident !in db.messages then 1 else 0)
    ensures RestDone(rules, m, plan, done, db, db', r0, r, raised)
  {
  }

  class Pipeline {
    const rules: Rules
    const storage: Storage
    /** Which operations raise, counted over the life of the pipeline, and the clock. */
    const fails: nat -> bool
    const clock: nat -> Time
    var step: nat
    /** How many operations have raised. */
    var raises: nat

    constructor (rules: Rules, storage: Storage, fails: nat -> bool, clock: nat -> Time)
      ensures this.rules == rules && this.storage == storage && this.fails == fails && this.clock == clock
    {
      this.rules, this.storage, this.fails, this.clock := rules, storage, fails, clock;
      step, raises := 0, 0;
    }

    method Raises() returns (raised: bool)
      modifies this
      ensures raised == fails(old(step)) && step == old(step) + 1
      ensures raises == old(raises) + if raised then 1 else 0
    {
      raised := fails(step);
      step, raises := step + 1, raises + if raised then 1 else 0;
    }

    function Tables(): Db
      reads storage
    {
      storage.Contents()
    }

    /** One turn of the inner loop. */
    method ProcessMessage(m: Message, now: Time, r0: Report) returns (r: Report, raised: bool, ghost done: nat)
      requires Injective(rules.hash) && Consistent(rules.hash, Tables())
      modifies this, storage
      ensures raises == old(raises) + if raised then 1 else 0
      ensures PlanDone(rules, m, Plan(rules, m, now), done, old(Tables()), Tables(), r0, r, raised)
    {
      ghost var db := storage.Contents();
      ghost var plan := Plan(rules, m, now);
      FirstSteps(db, plan, m, plan[1].status);
      r, done := r0, 0;
      raised := Raises();
      if raised { return; }
      var known := storage.IsMessageKnown(m);
      if !known {
        r := r.(newMessages := r.newMessages + 1);
      }
      raised := Raises();
      if raised { return; }
      storage.PrepareMessageRefresh(m);
      PrepareKeeps(rules.hash, db, m.ident);
      ghost var r1 := r;
      r, raised, done := ReadPost(m, now, r, db, plan);
      NewRowCounted(rules, m, plan, done, db, storage.Contents(), r0, r1, r, raised);
    }

    /** The rest of a turn, after the post was detached. */
    method ReadPost(m: Message, now: Time, r0: Report, ghost db: Db, ghost plan: seq<Tx>)
      returns (r: Report, raised: bool, ghost done: nat)
      requires Injective(rules.hash) && Consistent(rules.hash, Tables())
      requires Tables() == Prepare(db, m.ident) && plan == Plan(rules, m, now)
      modifies this, storage
      ensures raises == old(raises) + if raised then 1 else 0
      ensures RestDone(rules, m, plan, done, db, Tables(), r0, r, raised)
    {
      r, done := r0, 1;
      raised := Raises();
      if raised {
        BrokenOff(rules, m, now, plan, db, r0);
      } else if rules.accepts(m) {
        r, raised, done := ReadAccepted(m, now, r0, db, plan);
      } else {
        r, raised, done := ReadRejected(m, now, r0, db, plan);
      }
    }

    method ReadRejected(m: Message, now: Time, r0: Report, ghost db: Db, ghost plan: seq<Tx>)
      returns (r: Report, raised: bool, ghost done: nat)
      requires Injective(rules.hash) && Consistent(rules.hash, Tables()) && !rules.accepts(m)
      requires Tables() == Prepare(db, m.ident) && plan == Plan(rules, m, now)
      modifies this, storage
      ensures raises == old(raises) + if raised then 1 else 0
      ensures RestDone(rules, m, plan, done, db, Tables(), r0, r, raised)
    {
      FirstSteps(db, plan, m, Filtered);
      r, done := r0.(filteredMessages := r0.filteredMessages + 1), 1;
      raised := Raises();
      if !raised {
        storage.StoreMessage(m, Filtered);
        done := 2;
      }
    }

    method ReadAccepted(m: Message, now: Time, r0: Report, ghost db: Db, ghost plan: seq<Tx>)
      returns (r: Report, raised: bool, ghost done: nat)
      requires Injective(rules.hash) && Consistent(rules.hash, Tables()) && rules.accepts(m)
      requires Tables() == Prepare(db, m.ident) && plan == Plan(rules, m, now)
      modifies this, storage
      ensures raises == old(raises) + if raised then 1 else 0
      ensures RestDone(rules, m, plan, done, db, Tables(), r0, r, raised)
    {
      r, done := r0, 1;
      BrokenOff(rules, m, now, plan, db, r0);
      raised := Raises();
      if raised { return; }
      var offers := Extract(rules, m, now);
      PlanSavesOffers(rules, m, now);
      raised := Raises();
      if raised { return; }
      r, raised, done := StoreExtracted(m, offers, r0, db, plan);
    }

    method StoreExtracted(m: Message, offers: seq<Offer>, r0: Report, ghost db: Db, ghost plan: seq<Tx>)
      returns (r: Report, raised: bool, ghost done: nat)
      requires Injective(rules.hash) && Consistent(rules.hash, Tables()) && rules.accepts(m)
      requires Tables() == Prepare(db, m.ident) && SavesOffers(rules, plan, m, offers)
      modifies this, storage
      ensures raises == old(raises) + if raised then 1 else 0
      ensures RestDone(rules, m, plan, done, db, Tables(), r0, r, raised)
    {
      FirstSteps(db, plan, m, StatusOf(offers));
      storage.StoreMessage(m, if offers == [] then NoOffers else Processed);
      r, raised, done := StoreOffers(offers, r0, db, plan);
      OffersSavedIsRest(rules, m, offers, plan, done, db, storage.Contents(), r0, r, raised);
    }

    /** The loop over a post's offers, after its row was stored. */
    method StoreOffers(offers: seq<Offer>, r0: Report, ghost db: Db, ghost plan: seq<Tx>)
      returns (r: Report, raised: bool, ghost done: nat)
      requires Injective(rules.hash) && Consistent(rules.hash, Tables())
      requires EndsWithSaves(rules.hash, plan, offers) && OffersSaved(r0, r0, db, Tables(), plan, 2)
      modifies this, storage
      ensures raises == old(raises) + if raised then 1 else 0
      ensures 2 <= done <= |plan| && (!raised ==> done == |plan|)
      ensures OffersSaved(r0, r, db, Tables(), plan, done)
      ensures Consistent(rules.hash, Tables()) && Tables().messages == old(Tables()).messages
    {
      r, raised, done := r0, false, 2;
      for i := 0 to |offers|
        invariant done == 2 + i && !raised && raises == old(raises)
        invariant OffersSaved(r0, r, db, Tables(), plan, done)
        invariant Consistent(rules.hash, Tables()) && Tables().messages == old(Tables()).messages
      {
        raised := Raises();
        if raised { return; }
        r := StoreNext(offers[i], r, r0, db, plan, done);
        done := done + 1;
      }
    }

    method StoreNext(o: Offer, r1: Report, ghost r0: Report, ghost db: Db, ghost plan: seq<Tx>, ghost done: nat)
      returns (r: Report)
      requires Injective(rules.hash) && Consistent(rules.hash, Tables())
      requires OffersSaved(r0, r1, db, Tables(), plan, done)
      requires done < |plan| && plan[done] == OfferTx(o) && o.id == rules.hash(o.dedupeKey)
      modifies storage
      ensures OffersSaved(r0, r, db, Tables(), plan, done + 1)
      ensures Consistent(rules.hash, Tables()) && Tables().messages == old(Tables()).messages
    {
      ghost var db1 := storage.Contents();
      SaveNeverCollides(rules.hash, db1, o);
      var outcome := storage.StoreOffer(o);
      assert outcome != IntegrityError;
      if outcome == Created {
        r := r1.(offersCreated := r1.offersCreated + 1);
      } else {
        r := r1.(duplicatesFound := r1.duplicatesFound + 1);
      }
      OneMoreSave(r0, r1, r, db, db1, storage.Contents(), plan, done, outcome);
    }

    /** A turn with the time at which it began. */
    method TakeTurn(m: Message, r0: Report) returns (r: Report, raised: bool, ghost turn: Turn)
      requires Injective(rules.hash) && Consistent(rules.hash, Tables())
      modifies this, storage
      ensures raises == old(raises) + if raised then 1 else 0
      ensures PostsSynced(rules, [m], old(Tables()), Tables(), r0, r, [turn], raised)
    {
      ghost var db := storage.Contents();
      var now := clock(step);
      ghost var done: nat;
      r, raised, done := ProcessMessage(m, now, r0);
      turn := TurnOf(rules, m, now, done);
      PlanDoneIsSynced(rules, m, now, done, db, storage.Contents(), r0, r, raised);
    }

    /** The inner loop over the posts of one source. */
    method SyncMessages(messages: seq<Message>, r0: Report) returns (r: Report, raised: bool, ghost turns: seq<Turn>)
      requires Injective(rules.hash) && Consistent(rules.hash, Tables())
      modifies this, storage
      ensures raises == old(raises) + if raised then 1 else 0
      ensures PostsSynced(rules, messages, old(Tables()), Tables(), r0, r, turns, raised)
    {
      ghost var db, seen := storage.Contents(), [];
      r, raised, turns := r0, false, [];
      NothingSynced(rules, db, r0);
      var i := 0;
      while i < |messages| && !raised
        invariant i <= |messages| && seen == messages[..i] && raises == old(raises) + if raised then 1 else 0
        invariant PostsSynced(rules, seen, db, Tables(), r0, r, turns, raised)
      {
        ghost var db1, r1 := storage.Contents(), r;
        assert messages[..i + 1] == seen + [messages[i]];
        ghost var turn: Turn;
        r, raised, turn := TakeTurn(messages[i], r);
        MorePostsSynced(rules, seen, [messages[i]], db, db1, storage.Contents(), r0, r1, r, turns, [turn], raised);
        seen, turns, i := seen + [messages[i]], turns + [turn], i + 1;
      }
      if raised {
        RestIsLeft(rules, seen, messages, db, storage.Contents(), r0, r, turns);
      } else {
        assert seen == messages;
      }
    }

    /** One turn of the outer loop: a failed source must not stop the others. */
    method SyncSource(source: Source, r0: Report) returns (r: Report, ghost turns: seq<Turn>)
      requires Injective(rules.hash) && Consistent(rules.hash, Tables())
      modifies this, storage
      ensures r.errors == r0.errors + if r.sourcesFailed > r0.sourcesFailed then [source.name] else []
      ensures r.sourcesFailed == r0.sourcesFailed + raises - old(raises) + if source.fetched.None? then 1 else 0
      ensures SourcesSynced(rules, [source], old(Tables()), Tables(), r0, r, turns)
    {
      r, turns := r0, [];
      OneSource(source);
      var raised := source.fetched.None?;
      if !raised {
        var posts := source.fetched.value;
        r := r.(sourcesProcessed := r.sourcesProcessed + 1, messagesSeen := r.messagesSeen + |posts|);
        r, raised, turns := SyncMessages(posts, r);
      }
      assert Messages(turns) <= PostsIn(source);
      PrefixCounts(Messages(turns), PostsIn(source));
      if raised {
        r := r.(sourcesFailed := r.sourcesFailed + 1, errors := r.errors + [source.name]);
      }
    }

    /** Main result: the outer loop over the enabled sources.  In every run the errors name the failed sources in
        order, a source fails exactly when it could not be fetched or one of its operations raised, and
        each source is processed, failed or both.  In a run without failures every post was read, the new posts are
        the growth of the message table, created plus duplicate offers are all that were extracted, and every
        post read is stored and linked as in its last version, while all others are left as they were. */
    method Sync(sources: seq<Source>) returns (r: Report, ghost turns: seq<Turn>, ghost failed: seq<bool>)
      requires Injective(rules.hash) && Consistent(rules.hash, Tables())
      modifies this, storage
      ensures Tables() == ApplyAll(old(Tables()), Txs(turns)) && AreTurns(rules, turns)
      ensures |failed| == |sources| && forall i :: 0 <= i < |sources| && sources[i].fetched.None? ==> failed[i]
      ensures r.errors == NamesOf(sources, failed) && |r.errors| == r.sourcesFailed
      ensures r.sourcesFailed == raises - old(raises) + |sources| - FetchedCount(sources)
      ensures r.sourcesProcessed == FetchedCount(sources) && |sources| <= r.sourcesProcessed + r.sourcesFailed
      ensures r.messagesSeen == |PostsOf(sources)| && multiset(Messages(turns)) <= multiset(PostsOf(sources))
      ensures
        var growth := |Tables().messages| - |old(Tables()).messages|;
        growth <= r.newMessages <= growth + r.sourcesFailed
      ensures r.offersCreated == Creations(old(Tables()), Txs(turns))
      ensures r.sourcesFailed == 0 ==>
        && Covers(turns, PostsOf(sources))
        && r.offersCreated + r.duplicatesFound == OfferTotal(rules, PostsOf(sources))
        && r.filteredMessages == RejectedCount(rules, PostsOf(sources))
        && UpToDate(rules, old(Tables()), Tables(), PostsOf(sources))
    {
      ghost var db := storage.Contents();
      r, turns, failed := SyncFrom(sources, Blank);
      assert [] + NamesOf(sources, failed) == NamesOf(sources, failed);
      TurnsTell(rules, turns);
      AllReadIsUpToDate(rules, sources, db, storage.Contents(), r, turns);
    }

    method SyncFrom(sources: seq<Source>, r0: Report)
      returns (r: Report, ghost turns: seq<Turn>, ghost failed: seq<bool>)
      requires Injective(rules.hash) && Consistent(rules.hash, Tables())
      modifies this, storage
      ensures r.sourcesFailed == r0.sourcesFailed + raises - old(raises) + |sources| - FetchedCount(sources)
      ensures NamesTold(sources, failed, r0, r)
      ensures SourcesSynced(rules, sources, old(Tables()), Tables(), r0, r, turns)
    {
      ghost var db := storage.Contents();
      r, turns, failed := r0, [], [];
      NothingSynced(rules, db, r0);
      for i := 0 to |sources|
        invariant SourcesSynced(rules, sources[..i], db, Tables(), r0, r, turns)
        invariant r.sourcesFailed == r0.sourcesFailed + raises - old(raises) + i - FetchedCount(sources[..i])
        invariant NamesTold(sources[..i], failed, r0, r)
      {
        ghost var db1, r1, seen := storage.Contents(), r, sources[..i];
        assert sources[..i + 1] == seen + [sources[i]];
        ghost var more: seq<Turn>;
        r, more := SyncSource(sources[i], r);
        OneMoreSource(seen, sources[i]);
        OneMoreName(seen, failed, sources[i], r0, r1, r);
        MoreSourcesSynced(rules, seen, sources[i], db, db1, storage.Contents(), r0, r1, r, turns, more);
        turns, failed := turns + more, failed + [r.sourcesFailed > r1.sourcesFailed];
      }
      assert sources[..|sources|] == sources;
    }
  }

  /** The names of the sources that are marked, in order. */
  function NamesOf(sources: seq<Source>, marked: seq<bool>): seq<string>
    requires |marked| == |sources|
  {
    if sources == [] then []
    else
      var n := |sources| - 1;
      var names := NamesOf(sources[..n], marked[..n]);
      if marked[n] then names + [sources[n].name] else names
  }

  /** The errors of a stretch name its failed sources, among them all that could not be fetched. */
  ghost predicate NamesTold(sources: seq<Source>, failed: seq<bool>, r0: Report, r: Report) {
    && |failed| == |sources| && r.errors == r0.errors + NamesOf(sources, failed)
    && forall i :: 0 <= i < |sources| && sources[i].fetched.None? ==> failed[i]
  }

  lemma AllReadIsUpToDate(rules: Rules, sources: seq<Source>, db: Db, db': Db, r: Report, turns: seq<Turn>)
    requires Injective(rules.hash) && Consistent(rules.hash, db)
    requires SourcesSynced(rules, sources, db, db', Blank, r, turns)
    ensures r.sourcesFailed == 0 ==> UpToDate(rules, db, db', PostsOf(sources))
  {
    if r.sourcesFailed == 0 {
      CompleteTurnsLink(rules, db, turns);
    }
  }

  lemma OneMoreName(seen: seq<Source>, failed: seq<bool>, source: Source, r0: Report, r1: Report, r: Report)
    requires NamesTold(seen, failed, r0, r1) && (source.fetched.None? ==> r.sourcesFailed > r1.sourcesFailed)
    requires r.errors == r1.errors + if r.sourcesFailed > r1.sourcesFailed then [source.name] else []
    ensures NamesTold(seen + [source], failed + [r.sourcesFailed > r1.sourcesFailed], r0, r)
  {
    var all, marks := seen + [source], failed + [r.sourcesFailed > r1.sourcesFailed];
    assert all[..|seen|] == seen && marks[..|seen|] == failed;
    var names := NamesOf(seen, failed);
    assert r0.errors + names + [source.name] == r0.errors + (names + [source.name]);
    assert r1.errors + [] == r1.errors;
  }
}
