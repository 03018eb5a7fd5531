/** What the deals store holds after any history of complete and broken-off post processings. */
module DealsHistory {
  import opened Common
  import opened DealsExtractor
  import opened DealsStorage

  datatype Tx = PrepareTx(post: Ident) | MessageTx(m: Message, status: Status) | OfferTx(o: Offer)

  ghost function Apply(db: Db, tx: Tx): Db {
    match tx
    case PrepareTx(post) => Prepare(db, post)
    case MessageTx(m, status) => SaveMessage(db, m, status)
    case OfferTx(o) => SaveOffer(db, o).0
  }

  ghost function ApplyAll(db: Db, txs: seq<Tx>): Db {
    if txs == [] then db else Apply(ApplyAll(db, txs[..|txs| - 1]), txs[|txs| - 1])
  }

  lemma {:induction false} ApplyAllSplits(db: Db, a: seq<Tx>, b: seq<Tx>)
    ensures ApplyAll(db, a + b) == ApplyAll(ApplyAll(db, a), b)
  {
    if b == [] {
      assert a + b == a;
    } else {
      assert (a + b)[..|a + b| - 1] == a + b[..|b| - 1];
      ApplyAllSplits(db, a, b[..|b| - 1]);
    }
  }

  // ---- What every transaction keeps ----

  ghost predicate Injective(hash: string -> string) {
    forall a, b :: hash(a) == hash(b) ==> a == b
  }

  /** Row ids are the hashes of their keys, every link leads to an offer, and every offer
      has a link. */
  ghost predicate Consistent(hash: string -> string, db: Db) {
    && (forall id :: id in db.offers ==> id == hash(db.offers[id].dedupeKey))
    && (forall l :: l in db.links ==> l.0 in db.offers)
    && (forall id :: id in db.offers ==> HasLink(db.links, id))
  }

  lemma ConsistentKeysUnique(hash: string -> string, db: Db)
    requires Consistent(hash, db)
    ensures UniqueKeys(db)
  {
  }

  /** Offers carry the hash of their key as id. */
  ghost predicate Hashed(hash: string -> string, tx: Tx) {
    tx.OfferTx? ==> tx.o.id == hash(tx.o.dedupeKey)
  }

  /** The links of one table are in the other, with the same addresses. */
  ghost predicate LinksKept(links: map<(OfferId, Ident), string>, links': map<(OfferId, Ident), string>) {
    forall l :: l in links ==> l in links' && links'[l] == links[l]
  }

  lemma PrepareKeeps(hash: string -> string, db: Db, post: Ident)
    requires Consistent(hash, db)
    ensures Consistent(hash, Prepare(db, post))
    ensures forall l: (OfferId, Ident) :: l in Prepare(db, post).links <==> l in db.links && l.1 != post
    ensures LinksKept(Prepare(db, post).links, db.links)
  {
    var db' := Prepare(db, post);
    forall id | id in db'.offers
      ensures HasLink(db'.links, id)
    {
      var l :| l in db.links && l.0 == id;
      if (id, post) !in db.links {
        assert l.1 != post;
        assert l in db'.links;
      }
    }
    forall l | l in db'.links
      ensures l.0 in db'.offers
    {
      assert l in db.links;
      assert HasLink(db'.links, l.0);
    }
  }

  /** What a save changes: the row and the link of its own key and post, and nothing else.  A link that
      was there keeps its address. */
  ghost predicate OnlySaved(db: Db, db': Db, o: Offer) {
    && db'.links.Keys == db.links.Keys + {(o.id, o.ident)} && LinksKept(db.links, db'.links)
    && ((o.id, o.ident) in db.links || db'.links[(o.id, o.ident)] == o.url)
    && db'.offers.Keys == db.offers.Keys + {o.id}
    && db'.offers[o.id].dedupeKey == o.dedupeKey
    && db'.messages == db.messages
    && forall id :: id in db.offers && id != o.id ==> db'.offers[id] == db.offers[id]
  }

  /** With row ids that are hashes of keys, a save never collides. */
  lemma SaveFindsOwnRow(hash: string -> string, db: Db, o: Offer)
    requires Injective(hash) && Consistent(hash, db) && o.id == hash(o.dedupeKey)
    ensures KeyStored(db, o.dedupeKey) <==> o.id in db.offers
    ensures KeyStored(db, o.dedupeKey) ==> IdOfKey(db, o.dedupeKey) == o.id && db.offers[o.id].dedupeKey == o.dedupeKey
  {
    if o.id in db.offers {
      assert db.offers[o.id].dedupeKey == o.dedupeKey;
    }
  }

  lemma SaveOfferChanges(hash: string -> string, db: Db, o: Offer)
    requires Injective(hash) && Consistent(hash, db) && o.id == hash(o.dedupeKey)
    ensures SaveOffer(db, o).1 == if o.id in db.offers then Duplicate else Created
    ensures OnlySaved(db, SaveOffer(db, o).0, o)
  {
    SaveFindsOwnRow(hash, db, o);
  }

  lemma SavedIsConsistent(hash: string -> string, db: Db, db': Db, o: Offer)
    requires Consistent(hash, db) && OnlySaved(db, db', o) && o.id == hash(o.dedupeKey)
    ensures Consistent(hash, db')
  {
    assert (o.id, o.ident) in db'.links;
    forall id | id in db'.offers
      ensures HasLink(db'.links, id)
    {
      if id != o.id {
        var l :| l in db.links && l.0 == id;
        assert l in db'.links;
      }
    }
  }

  lemma SaveOfferKeeps(hash: string -> string, db: Db, o: Offer)
    requires Injective(hash) && Consistent(hash, db) && o.id == hash(o.dedupeKey)
    ensures Consistent(hash, SaveOffer(db, o).0)
    ensures SaveOffer(db, o).1 == if o.id in db.offers then Duplicate else Created
    ensures OnlySaved(db, SaveOffer(db, o).0, o)
  {
    SaveOfferChanges(hash, db, o);
    SavedIsConsistent(hash, db, SaveOffer(db, o).0, o);
  }

  lemma ApplyKeeps(hash: string -> string, db: Db, tx: Tx)
    requires Injective(hash) && Consistent(hash, db) && Hashed(hash, tx)
    ensures Consistent(hash, Apply(db, tx))
  {
    match tx
    case PrepareTx(post) => PrepareKeeps(hash, db, post);
    case MessageTx(_, _) =>
    case OfferTx(o) => SaveOfferKeeps(hash, db, o);
  }

  /** Main result 1: after any sequence of transactions, stopped anywhere, keys are unique, links
      lead to offers, and offers have links. */
  lemma {:induction false} AnySequenceIsConsistent(hash: string -> string, txs: seq<Tx>)
    requires Injective(hash) && forall i :: 0 <= i < |txs| ==> Hashed(hash, txs[i])
    ensures Consistent(hash, ApplyAll(Empty, txs)) && UniqueKeys(ApplyAll(Empty, txs))
  {
    if txs != [] {
      AnySequenceIsConsistent(hash, txs[..|txs| - 1]);
      ApplyKeeps(hash, ApplyAll(Empty, txs[..|txs| - 1]), txs[|txs| - 1]);
    }
  }

  // ---- Processing one post ----

  /** What the row of a completely processed post says of it. */
  function StatusFor(rules: Rules, m: Message): Status {
    if !rules.accepts(m) then Filtered else if KeysOf(rules, m) == [] then NoOffers else Processed
  }

  function StatusOf(offers: seq<Offer>): Status {
    if offers == [] then NoOffers else Processed
  }

  /** The transactions of one processing, in order. */
  function Plan(rules: Rules, m: Message, now: Time): seq<Tx> {
    if !rules.accepts(m) then [PrepareTx(m.ident), MessageTx(m, Filtered)]
    else
      var offers := OffersOf(rules, m, now);
      [PrepareTx(m.ident), MessageTx(m, StatusOf(offers))] + Saves(offers)
  }

  function Saves(offers: seq<Offer>): (txs: seq<Tx>)
    ensures |txs| == |offers| && forall i :: 0 <= i < |offers| ==> txs[i] == OfferTx(offers[i])
  {
    if offers == [] then [] else Saves(offers[..|offers| - 1]) + [OfferTx(offers[|offers| - 1])]
  }

  /** A processing that was broken off after `done` transactions, or complete. */
  datatype Attempt = Attempt(m: Message, now: Time, done: nat)

  function Done(rules: Rules, a: Attempt): seq<Tx> {
    var plan := Plan(rules, a.m, a.now);
    plan[..Min(a.done, |plan|)]
  }

  predicate IsComplete(rules: Rules, a: Attempt) {
    a.done >= |Plan(rules, a.m, a.now)|
  }

  ghost function Run(rules: Rules, attempts: seq<Attempt>): Db {
    if attempts == [] then Empty
    else ApplyAll(Run(rules, attempts[..|attempts| - 1]), Done(rules, attempts[|attempts| - 1]))
  }

  /** The keys an attempt leaves linked to its post once it has begun. */
  function KeysDone(rules: Rules, a: Attempt): seq<string> {
    KeysOf(rules, a.m)[..Min(if a.done >= 2 then a.done - 2 else 0, |KeysOf(rules, a.m)|)]
  }

  /** The keys that should be linked to a post: those of its last attempt that began. */
  function LinkedKeys(rules: Rules, attempts: seq<Attempt>, post: Ident): seq<string> {
    if attempts == [] then []
    else
      var last := attempts[|attempts| - 1];
      if last.m.ident == post && last.done >= 1 then KeysDone(rules, last)
      else LinkedKeys(rules, attempts[..|attempts| - 1], post)
  }

  ghost predicate LinksAre(hash: string -> string, db: Db, post: Ident, keys: seq<string>) {
    forall id :: (id, post) in db.links <==> exists i :: 0 <= i < |keys| && id == hash(keys[i])
  }

  /** The links of a post show this address. */
  ghost predicate UrlsAre(db: Db, post: Ident, url: string) {
    forall id :: (id, post) in db.links ==> db.links[(id, post)] == url
  }

  /** Detach the post, store its row, then save one offer for each key. */
  ghost predicate IsPlan(hash: string -> string, txs: seq<Tx>, m: Message, keys: seq<string>) {
    && |txs| == 2 + |keys| && txs[0] == PrepareTx(m.ident) && txs[1].MessageTx? && txs[1].m == m
    && forall i :: 2 <= i < |txs| ==>
      && txs[i].OfferTx? && txs[i].o.ident == m.ident && txs[i].o.url == m.url
      && txs[i].o.dedupeKey == keys[i - 2] && txs[i].o.id == hash(keys[i - 2])
  }

  lemma PlanIsPlan(rules: Rules, m: Message, now: Time)
    ensures IsPlan(rules.hash, Plan(rules, m, now), m, KeysOf(rules, m))
    ensures Plan(rules, m, now)[1].status == StatusFor(rules, m)
  {
    if rules.accepts(m) {
      var txs, offers := Plan(rules, m, now), OffersOf(rules, m, now);
      assert forall i :: 2 <= i < |txs| ==> txs[i] == Saves(offers)[i - 2] == OfferTx(offers[i - 2]);
    }
  }

  /** The post has links for exactly these keys, which show its address, and no other post's links
      have changed. */
  ghost predicate OnlyRelinked(hash: string -> string, db: Db, db': Db, post: Ident, keys: seq<string>, url: string) {
    && Consistent(hash, db')
    && LinksAre(hash, db', post, keys) && UrlsAre(db', post, url)
    && OthersLinked(db, db', post)
  }

  ghost predicate OthersLinked(db: Db, db': Db, post: Ident) {
    forall l: (OfferId, Ident) :: l.1 != post ==>
      (l in db'.links <==> l in db.links) && (l in db.links ==> db'.links[l] == db.links[l])
  }

  /** The keys saved by the first `n` transactions of a plan. */
  function SavedKeys(keys: seq<string>, n: nat): seq<string>
    requires n <= |keys| + 2
  {
    keys[..if n >= 2 then n - 2 else 0]
  }

  /** After the first `n` transactions of a processing: only this post's links and row changed. */
  ghost predicate AfterPrefix(hash: string -> string, db: Db, db': Db, txs: seq<Tx>,
                              m: Message, keys: seq<string>, n: nat)
    requires IsPlan(hash, txs, m, keys) && 1 <= n <= |txs|
  {
    && OnlyRelinked(hash, db, db', m.ident, SavedKeys(keys, n), m.url)
    && db'.messages == if n >= 2 then db.messages[m.ident := MessageRow(m, txs[1].status)] else db.messages
  }

  lemma {:induction false} PlanPrefix(hash: string -> string, db: Db, txs: seq<Tx>,
                                      m: Message, keys: seq<string>, n: nat)
    requires Injective(hash) && Consistent(hash, db) && IsPlan(hash, txs, m, keys) && 1 <= n <= |txs|
    ensures AfterPrefix(hash, db, ApplyAll(db, txs[..n]), txs, m, keys, n)
  {
    assert txs[..n][..n - 1] == txs[..n - 1];
    var before := ApplyAll(db, txs[..n - 1]);
    if n == 1 {
      PrepareKeeps(hash, db, m.ident);
    } else {
      PlanPrefix(hash, db, txs, m, keys, n - 1);
      assert ApplyAll(db, txs[..n]) == Apply(before, txs[n - 1]);
      if n > 2 {
        OfferPrefix(hash, db, before, txs, m, keys, n);
      }
    }
  }

  lemma OfferPrefix(hash: string -> string, db: Db, before: Db, txs: seq<Tx>, m: Message, keys: seq<string>, n: nat)
    requires Injective(hash) && IsPlan(hash, txs, m, keys) && 2 < n <= |txs|
    requires AfterPrefix(hash, db, before, txs, m, keys, n - 1)
    ensures AfterPrefix(hash, db, Apply(before, txs[n - 1]), txs, m, keys, n)
  {
    var o := txs[n - 1].o;
    assert o.id == hash(keys[n - 3]) && o.ident == m.ident;
    OneMoreSaved(hash, db, before, o, SavedKeys(keys, n - 1));
    assert SavedKeys(keys, n) == SavedKeys(keys, n - 1) + [keys[n - 3]];
  }

  lemma OneMoreSaved(hash: string -> string, db: Db, before: Db, o: Offer, keys: seq<string>)
    requires Injective(hash) && o.id == hash(o.dedupeKey)
    requires OnlyRelinked(hash, db, before, o.ident, keys, o.url)
    ensures OnlyRelinked(hash, db, SaveOffer(before, o).0, o.ident, keys + [o.dedupeKey], o.url)
    ensures SaveOffer(before, o).0.messages == before.messages
  {
    var after := SaveOffer(before, o).0;
    SaveOfferKeeps(hash, before, o);
    OneMoreLink(hash, before, after, o.ident, keys, o.dedupeKey);
    OneMoreAddress(db, before, after, o);
  }

  lemma OneMoreAddress(db: Db, before: Db, after: Db, o: Offer)
    requires OthersLinked(db, before, o.ident) && UrlsAre(before, o.ident, o.url) && OnlySaved(before, after, o)
    ensures OthersLinked(db, after, o.ident) && UrlsAre(after, o.ident, o.url)
  {
    forall l: (OfferId, Ident) | l.1 != o.ident
      ensures (l in after.links <==> l in db.links) && (l in db.links ==> after.links[l] == db.links[l])
    {
      assert l in after.links.Keys <==> l in before.links.Keys;
    }
    forall id | (id, o.ident) in after.links
      ensures after.links[(id, o.ident)] == o.url
    {
      assert (id, o.ident) in after.links.Keys;
    }
  }

  lemma OneMoreLink(hash: string -> string, db: Db, db': Db, post: Ident, keys: seq<string>, key: string)
    requires LinksAre(hash, db, post, keys) && db'.links.Keys == db.links.Keys + {(hash(key), post)}
    ensures LinksAre(hash, db', post, keys + [key])
  {
    forall id
      ensures (id, post) in db'.links <==> exists i :: 0 <= i < |keys + [key]| && id == hash((keys + [key])[i])
    {
      if (id, post) in db.links {
        var i :| 0 <= i < |keys| && id == hash(keys[i]);
        assert (keys + [key])[i] == keys[i];
      }
      if id == hash(key) {
        assert (keys + [key])[|keys|] == key;
      }
    }
  }

  /** An attempt that began leaves exactly its own keys linked to its post, under its own address. */
  lemma AttemptLinks(rules: Rules, db: Db, a: Attempt)
    requires Injective(rules.hash) && Consistent(rules.hash, db)
    ensures
      var db' := ApplyAll(db, Done(rules, a));
      && Consistent(rules.hash, db')
      && (a.done >= 1 ==> LinksAre(rules.hash, db', a.m.ident, KeysDone(rules, a)) && UrlsAre(db', a.m.ident, a.m.url))
      && OthersLinked(db, db', a.m.ident) && (a.done == 0 ==> db' == db)
      && db'.messages
         == (if a.done >= 2 then db.messages[a.m.ident := MessageRow(a.m, StatusFor(rules, a.m))] else db.messages)
  {
    var txs, keys := Plan(rules, a.m, a.now), KeysOf(rules, a.m);
    PlanIsPlan(rules, a.m, a.now);
    var n := Min(a.done, |txs|);
    if n > 0 {
      PlanPrefix(rules.hash, db, txs, a.m, keys, n);
      assert SavedKeys(keys, n) == KeysDone(rules, a);
    }
    assert Done(rules, a) == txs[..n];
  }

  lemma OtherPostsKeepLinks(hash: string -> string, db: Db, db': Db, other: Ident, post: Ident,
                            keys: seq<string>, url: string)
    requires LinksAre(hash, db, post, keys) && UrlsAre(db, post, url)
    requires (OthersLinked(db, db', other) && post != other) || db' == db
    ensures LinksAre(hash, db', post, keys) && UrlsAre(db', post, url)
  {
  }

  /** The address that should show for a post: that of its last attempt that began. */
  function LinkedUrl(attempts: seq<Attempt>, post: Ident): string {
    if attempts == [] then ""
    else
      var last := attempts[|attempts| - 1];
      if last.m.ident == post && last.done >= 1 then last.m.url else LinkedUrl(attempts[..|attempts| - 1], post)
  }

  /** Main result 2: after any history, the links of every post are those of its last attempt
      that began, cut where that attempt was cut, and show its address; nothing else is linked, and
      exactly the linked offers exist.  Order, earlier versions and other posts do not matter. */
  lemma {:induction false} LinksOfAnyHistory(rules: Rules, attempts: seq<Attempt>)
    requires Injective(rules.hash)
    ensures Consistent(rules.hash, Run(rules, attempts))
    ensures forall post :: LinksAre(rules.hash, Run(rules, attempts), post, LinkedKeys(rules, attempts, post))
    ensures forall post :: UrlsAre(Run(rules, attempts), post, LinkedUrl(attempts, post))
  {
    if attempts != [] {
      var before, a := attempts[..|attempts| - 1], attempts[|attempts| - 1];
      LinksOfAnyHistory(rules, before);
      AttemptLinks(rules, Run(rules, before), a);
      forall post
        ensures LinksAre(rules.hash, Run(rules, attempts), post, LinkedKeys(rules, attempts, post))
        ensures UrlsAre(Run(rules, attempts), post, LinkedUrl(attempts, post))
      {
        if post != a.m.ident || a.done == 0 {
          OtherPostsKeepLinks(rules.hash, Run(rules, before), Run(rules, attempts), a.m.ident, post,
                              LinkedKeys(rules, before, post), LinkedUrl(before, post));
        }
      }
    }
  }

  // ---- Consequences ----

  lemma {:induction false} LinkedKeyHasPost(rules: Rules, attempts: seq<Attempt>, post: Ident, key: string)
    returns (m: Message)
    requires key in LinkedKeys(rules, attempts, post)
    ensures m.ident == post && key in KeysOf(rules, m)
  {
    var last := attempts[|attempts| - 1];
    if last.m.ident == post && last.done >= 1 {
      m := last.m;
    } else {
      m := LinkedKeyHasPost(rules, attempts[..|attempts| - 1], post, key);
    }
  }

  /** An offer under a post's source key is linked to that post alone, whatever was processed. */
  lemma SourceOfferIsOwn(rules: Rules, attempts: seq<Attempt>, post: Ident, other: Ident)
    requires Injective(rules.hash) && PlainIdent(post) && PlainIdent(other)
    requires (rules.hash(SourceKey(post)), other) in Run(rules, attempts).links
    ensures other == post
  {
    LinksOfAnyHistory(rules, attempts);
    var keys := LinkedKeys(rules, attempts, other);
    var i :| 0 <= i < |keys| && rules.hash(SourceKey(post)) == rules.hash(keys[i]);
    assert keys[i] in keys;
    var m := LinkedKeyHasPost(rules, attempts, other, keys[i]);
    SourceKeyIsOwn(rules, m, post);
  }

  /** Histories that end the same way for every post give the same links and the same offers. */
  lemma OnlyLastAttemptsMatter(rules: Rules, a: seq<Attempt>, b: seq<Attempt>)
    requires Injective(rules.hash)
    requires forall post :: LinkedKeys(rules, a, post) == LinkedKeys(rules, b, post)
    ensures Run(rules, a).links.Keys == Run(rules, b).links.Keys
    ensures Run(rules, a).offers.Keys == Run(rules, b).offers.Keys
  {
    var x, y := Run(rules, a), Run(rules, b);
    LinksOfAnyHistory(rules, a);
    LinksOfAnyHistory(rules, b);
    forall l: (OfferId, Ident)
      ensures l in x.links <==> l in y.links
    {
      assert LinksAre(rules.hash, x, l.1, LinkedKeys(rules, a, l.1));
      assert LinksAre(rules.hash, y, l.1, LinkedKeys(rules, b, l.1));
      assert l == (l.0, l.1);
    }
    SameLinksSameOffers(rules.hash, x, y);
    SameLinksSameOffers(rules.hash, y, x);
  }

  lemma SameLinksSameOffers(hash: string -> string, x: Db, y: Db)
    requires Consistent(hash, x) && Consistent(hash, y) && x.links.Keys == y.links.Keys
    ensures x.offers.Keys <= y.offers.Keys
  {
    forall id | id in x.offers
      ensures id in y.offers
    {
      var l :| l in x.links && l.0 == id;
      assert l in y.links;
    }
  }

  /** Breaking off a processing anywhere, of whatever version of the post, and then processing the
      post completely gives the same links and offers as never having started the first. */
  lemma InterruptionIsRepaired(rules: Rules, attempts: seq<Attempt>, broken: Attempt, full: Attempt)
    requires Injective(rules.hash) && broken.m.ident == full.m.ident && IsComplete(rules, full)
    ensures
      var repaired, direct := Run(rules, attempts + [broken] + [full]), Run(rules, attempts + [full]);
      repaired.links.Keys == direct.links.Keys && repaired.offers.Keys == direct.offers.Keys
  {
    var a, b := attempts + [broken] + [full], attempts + [full];
    assert a[..|a| - 1] == attempts + [broken] && (attempts + [broken])[..|attempts|] == attempts;
    assert b[..|b| - 1] == attempts;
    PlanIsPlan(rules, full.m, full.now);
    OnlyLastAttemptsMatter(rules, a, b);
  }

  ghost predicate AllComplete(rules: Rules, attempts: seq<Attempt>) {
    forall i :: 0 <= i < |attempts| ==> IsComplete(rules, attempts[i])
  }

  /** The keys of the version of a post that the message table holds. */
  ghost function StoredKeys(rules: Rules, db: Db, post: Ident): seq<string> {
    if post in db.messages then KeysOf(rules, db.messages[post].message) else []
  }

  /** Main result 3: when every processing completed, the link table is a function of the message
      table alone: the pairs of a post and a key extracted from its stored, latest version. */
  lemma {:induction false} LinksFollowMessages(rules: Rules, attempts: seq<Attempt>)
    requires Injective(rules.hash) && AllComplete(rules, attempts)
    ensures forall post ::
      LinksAre(rules.hash, Run(rules, attempts), post, StoredKeys(rules, Run(rules, attempts), post))
  {
    LinksOfAnyHistory(rules, attempts);
    forall post
      ensures StoredKeys(rules, Run(rules, attempts), post) == LinkedKeys(rules, attempts, post)
    {
      StoredIsLinked(rules, attempts, post);
    }
  }

  lemma {:induction false} StoredIsLinked(rules: Rules, attempts: seq<Attempt>, post: Ident)
    requires Injective(rules.hash) && AllComplete(rules, attempts)
    ensures StoredKeys(rules, Run(rules, attempts), post) == LinkedKeys(rules, attempts, post)
  {
    if attempts != [] {
      var before, a := attempts[..|attempts| - 1], attempts[|attempts| - 1];
      StoredIsLinked(rules, before, post);
      LinksOfAnyHistory(rules, before);
      PlanIsPlan(rules, a.m, a.now);
      AttemptLinks(rules, Run(rules, before), a);
      assert KeysDone(rules, a) == KeysOf(rules, a.m);
    }
  }

  lemma LinksArePairs(hash: string -> string, db: Db, post: Ident, keys: seq<string>)
    requires LinksAre(hash, db, post, keys)
    ensures (set l | l in db.links && l.1 == post) == Pairs(hash, keys, post)
  {
    forall l: (OfferId, Ident)
      ensures l in Pairs(hash, keys, post) <==> l in db.links && l.1 == post
    {
      assert l == (l.0, l.1);
    }
  }

  /** After a complete processing a post has exactly one link for each offer extracted. */
  lemma OneLinkPerOffer(rules: Rules, attempts: seq<Attempt>, a: Attempt)
    requires Injective(rules.hash) && UpperIsUpper(rules) && IsComplete(rules, a)
    ensures
      var db := Run(rules, attempts + [a]);
      |set l | l in db.links && l.1 == a.m.ident| == |KeysOf(rules, a.m)|
  {
    LinksOfAnyHistory(rules, attempts + [a]);
    PlanIsPlan(rules, a.m, a.now);
    assert LinkedKeys(rules, attempts + [a], a.m.ident) == KeysDone(rules, a) == KeysOf(rules, a.m);
    LinksArePairs(rules.hash, Run(rules, attempts + [a]), a.m.ident, KeysOf(rules, a.m));
    KeysDistinct(rules, a.m);
    PairsOfDistinctKeys(rules.hash, KeysOf(rules, a.m), a.m.ident);
  }

  ghost function Pairs(hash: string -> string, keys: seq<string>, post: Ident): set<(OfferId, Ident)> {
    set i | 0 <= i < |keys| :: (hash(keys[i]), post)
  }

  lemma {:induction false} PairsOfDistinctKeys(hash: string -> string, keys: seq<string>, post: Ident)
    requires Injective(hash) && forall i, j :: 0 <= i < j < |keys| ==> keys[i] != keys[j]
    ensures |Pairs(hash, keys, post)| == |keys|
  {
    if keys != [] {
      var rest, key := keys[..|keys| - 1], keys[|keys| - 1];
      PairsOfDistinctKeys(hash, rest, post);
      assert Pairs(hash, keys, post) == Pairs(hash, rest, post) + {(hash(key), post)};
      assert (hash(key), post) !in Pairs(hash, rest, post);
    }
  }

  // ---- The address of one link ----

  /** The addresses saved for a post under a key since the post was last detached. */
  function UrlsSaved(txs: seq<Tx>, key: string, post: Ident): seq<string> {
    if txs == [] then []
    else
      var before := UrlsSaved(txs[..|txs| - 1], key, post);
      match txs[|txs| - 1]
      case PrepareTx(p) => if p == post then [] else before
      case MessageTx(_, _) => before
      case OfferTx(o) => if o.dedupeKey == key && o.ident == post then before + [o.url] else before
  }

  /** Over any interleaving a post is linked to an offer exactly if it was saved under its key since the post
      was last detached, and the link shows the address of the first such save. */
  lemma {:induction false} LinkShowsFirstSave(hash: string -> string, txs: seq<Tx>, key: string, post: Ident)
    requires Injective(hash) && forall i :: 0 <= i < |txs| ==> Hashed(hash, txs[i])
    ensures
      var links, urls := ApplyAll(Empty, txs).links, UrlsSaved(txs, key, post);
      && ((hash(key), post) in links <==> urls != [])
      && (urls != [] ==> links[(hash(key), post)] == urls[0])
  {
    if txs != [] {
      var before, last := txs[..|txs| - 1], txs[|txs| - 1];
      LinkShowsFirstSave(hash, before, key, post);
      AnySequenceIsConsistent(hash, before);
      match last
      case PrepareTx(p) => PrepareKeeps(hash, ApplyAll(Empty, before), p);
      case MessageTx(_, _) =>
      case OfferTx(o) => SaveOfferKeeps(hash, ApplyAll(Empty, before), o);
    }
  }

  // ---- The life of one offer row ----

  /** The saves under a key since its row was last created; empty while there is no row. */
  ghost function SavesOf(txs: seq<Tx>, key: string): seq<Offer> {
    if txs == [] then []
    else
      var before, last := txs[..|txs| - 1], txs[|txs| - 1];
      if last.OfferTx? && last.o.dedupeKey == key then SavesOf(before, key) + [last.o]
      else if KeyStored(ApplyAll(Empty, txs), key) then SavesOf(before, key)
      else []
  }

  /** Save `best` is the last of those with the highest confidence. */
  ghost predicate IsLastBest(saves: seq<Offer>, best: nat) {
    && best < |saves|
    && (forall i :: 0 <= i < best ==> saves[i].confidence <= saves[best].confidence)
    && (forall i :: best < i < |saves| ==> saves[i].confidence < saves[best].confidence)
  }

  /** The row shows the last best save, and the creation time of the first save. */
  ghost predicate Summarises(row: OfferRow, saves: seq<Offer>) {
    exists best: nat :: IsLastBest(saves, best)
      && row == OfferRow(saves[0].dedupeKey, saves[best].kind, saves[best].confidence, saves[best].payload,
                         saves[0].createdAt, saves[best].updatedAt)
  }

  lemma MergedSummarises(row: OfferRow, saves: seq<Offer>, o: Offer)
    requires Summarises(row, saves)
    ensures Summarises(Merged(row, o), saves + [o])
  {
    var best: nat :| IsLastBest(saves, best)
      && row == OfferRow(saves[0].dedupeKey, saves[best].kind, saves[best].confidence, saves[best].payload,
                         saves[0].createdAt, saves[best].updatedAt);
    var more := saves + [o];
    assert IsLastBest(more, if o.confidence >= row.confidence then |saves| else best);
  }

  ghost predicate RowTells(hash: string -> string, db: Db, key: string, saves: seq<Offer>) {
    if KeyStored(db, key) then hash(key) in db.offers && Summarises(db.offers[hash(key)], saves)
    else saves == []
  }

  lemma RowAfterSave(hash: string -> string, db: Db, o: Offer, saves: seq<Offer>, key: string)
    requires Injective(hash) && Consistent(hash, db) && o.id == hash(o.dedupeKey) && RowTells(hash, db, key, saves)
    ensures RowTells(hash, SaveOffer(db, o).0, key, if o.dedupeKey == key then saves + [o] else saves)
    ensures o.dedupeKey != key ==> KeyStored(SaveOffer(db, o).0, key) == KeyStored(db, key)
  {
    var db' := SaveOffer(db, o).0;
    SaveOfferKeeps(hash, db, o);
    if o.dedupeKey != key {
      assert hash(key) != o.id;
      if KeyStored(db, key) {
        assert db'.offers[hash(key)] == db.offers[hash(key)] && db'.offers[hash(key)].dedupeKey == key;
      }
    } else if KeyStored(db, key) {
      assert IdOfKey(db, key) == hash(key);
      MergedSummarises(db.offers[hash(key)], saves, o);
      assert db'.offers[hash(key)].dedupeKey == key;
    } else {
      assert db'.offers[o.id].dedupeKey == key;
      assert IsLastBest([o], 0) && saves + [o] == [o];
    }
  }

  lemma RowAfterOther(hash: string -> string, db: Db, tx: Tx, saves: seq<Offer>, key: string)
    requires Consistent(hash, db) && !tx.OfferTx? && RowTells(hash, db, key, saves)
    ensures RowTells(hash, Apply(db, tx), key, if KeyStored(Apply(db, tx), key) then saves else [])
  {
    var db' := Apply(db, tx);
    assert forall id :: id in db'.offers ==> id in db.offers && db'.offers[id] == db.offers[id];
    if KeyStored(db', key) {
      var id :| id in db'.offers && db'.offers[id].dedupeKey == key;
      assert id == hash(key);
    }
  }

  /** Main result 4: between its creation and its deletion a row's confidence is the highest ever
      saved, its content that of the last save reaching it, its creation time the first
      save's, whatever transactions are interleaved. */
  lemma {:induction false} RowSummarisesItsSaves(hash: string -> string, txs: seq<Tx>, key: string)
    requires Injective(hash) && forall i :: 0 <= i < |txs| ==> Hashed(hash, txs[i])
    ensures RowTells(hash, ApplyAll(Empty, txs), key, SavesOf(txs, key))
  {
    if txs != [] {
      var before, last := txs[..|txs| - 1], txs[|txs| - 1];
      var db := ApplyAll(Empty, before);
      RowSummarisesItsSaves(hash, before, key);
      AnySequenceIsConsistent(hash, before);
      if last.OfferTx? {
        RowAfterSave(hash, db, last.o, SavesOf(before, key), key);
      } else {
        RowAfterOther(hash, db, last, SavesOf(before, key), key);
      }
    }
  }
}
