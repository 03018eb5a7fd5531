/** Listing offers with two queries instead of one query per offer.

    The database engine is a parameter: a query result is any list that the query's text
    allows (ties in the update time may come in any order).  `lt` and `ltId` are the
    engine's strict orders on post identities and offer ids. */
module DealsListing {
  import opened Common
  import opened DealsExtractor
  import opened DealsStorage

  const MAX_SOURCES_PER_OFFER := 20

  datatype SourceRow = SourceRow(offer: OfferId, post: Ident, url: string)

  datatype Listed = Listed(payload: string, sources: seq<SourceRow>)

  function Clamp(limit: int): nat {
    if limit < 1 then 1 else if limit > 500 then 500 else limit
  }

  ghost predicate StrictOrder<T(!new)>(lt: (T, T) -> bool) {
    && (forall a :: !lt(a, a))
    && (forall a, b, c :: lt(a, b) && lt(b, c) ==> lt(a, c))
    && (forall a, b :: a != b ==> lt(a, b) || lt(b, a))
  }

  // ---- What the two queries may answer ----

  predicate Matches(row: OfferRow, minimumConfidence: int, kind: Option<string>) {
    row.confidence >= minimumConfidence && (kind.None? || kind.value == "" || row.kind == kind.value)
  }

  ghost function Matching(db: Db, minimumConfidence: int, kind: Option<string>): set<OfferId> {
    set id | id in db.offers && Matches(db.offers[id], minimumConfidence, kind)
  }

  /** The first query: the matching offers by falling update time, cut at the clamped limit. */
  ghost predicate IsSelection(db: Db, minimumConfidence: int, kind: Option<string>, limit: int, ids: seq<OfferId>) {
    var all := Matching(db, minimumConfidence, kind);
    && (forall i :: 0 <= i < |ids| ==> ids[i] in all)
    && (forall i, j :: 0 <= i < j < |ids| ==> ids[i] != ids[j])
    && (forall i, j :: 0 <= i < j < |ids| ==> db.offers[ids[i]].updatedAt >= db.offers[ids[j]].updatedAt)
    && |ids| == Min(Clamp(limit), |all|)
    && (forall id, i :: id in all && id !in ids && 0 <= i < |ids| ==>
          db.offers[ids[i]].updatedAt >= db.offers[id].updatedAt)
  }

  ghost function Posts(db: Db, id: OfferId): set<Ident> {
    set l | l in db.links && l.0 == id :: l.1
  }

  /** How many posts of a set come before one: its row number, counted from zero. */
  ghost function Rank(lt: (Ident, Ident) -> bool, posts: set<Ident>, post: Ident): nat {
    |set p | p in posts && lt(p, post)|
  }

  ghost predicate RowBefore(lt: (Ident, Ident) -> bool, ltId: (OfferId, OfferId) -> bool, a: SourceRow, b: SourceRow) {
    ltId(a.offer, b.offer) || (a.offer == b.offer && lt(a.post, b.post))
  }

  /** A source row the second query selects: a link of a listed offer with a small row number. */
  ghost predicate Selected(db: Db, lt: (Ident, Ident) -> bool, ids: seq<OfferId>, r: SourceRow) {
    && (r.offer, r.post) in db.links && db.links[(r.offer, r.post)] == r.url && r.offer in ids
    && Rank(lt, Posts(db, r.offer), r.post) < MAX_SOURCES_PER_OFFER
  }

  /** The second query: all selected rows, ordered by offer id and key. */
  ghost predicate IsSourceResult(db: Db, lt: (Ident, Ident) -> bool, ltId: (OfferId, OfferId) -> bool,
                                 ids: seq<OfferId>, rows: seq<SourceRow>) {
    && (forall r :: r in rows <==> Selected(db, lt, ids, r))
    && (forall i, j :: 0 <= i < j < |rows| ==> RowBefore(lt, ltId, rows[i], rows[j]))
  }

  /** One query per offer: its links by key, cut at twenty. */
  ghost predicate IsOwnQuery(db: Db, lt: (Ident, Ident) -> bool, id: OfferId, own: seq<SourceRow>) {
    && (forall i :: 0 <= i < |own| ==>
          own[i].offer == id && (id, own[i].post) in db.links && own[i].url == db.links[(id, own[i].post)])
    && (forall i, j :: 0 <= i < j < |own| ==> lt(own[i].post, own[j].post))
    && |own| == Min(MAX_SOURCES_PER_OFFER, |Posts(db, id)|)
    && (forall post, i ::
          post in Posts(db, id) && 0 <= i < |own| && (forall j :: 0 <= j < |own| ==> own[j].post != post)
          ==> lt(own[i].post, post))
  }

  // ---- Row numbers pick the first twenty ----

  lemma {:induction false} HasLast(lt: (Ident, Ident) -> bool, posts: set<Ident>) returns (last: Ident)
    requires StrictOrder(lt) && posts != {}
    ensures last in posts && forall p :: p in posts && p != last ==> lt(p, last)
    decreases |posts|
  {
    var p :| p in posts;
    last := p;
    if posts != {p} {
      assert |posts - {p}| < |posts|;
      assert posts - {p} != {};
      var q := HasLast(lt, posts - {p});
      last := if lt(p, q) then q else p;
    }
  }

  ghost function Top(lt: (Ident, Ident) -> bool, posts: set<Ident>, n: nat): set<Ident> {
    set p | p in posts && Rank(lt, posts, p) < n
  }

  lemma {:induction false} TopSize(lt: (Ident, Ident) -> bool, posts: set<Ident>, n: nat)
    requires StrictOrder(lt)
    ensures |Top(lt, posts, n)| == Min(n, |posts|)
    decreases |posts|
  {
    if posts == {} {
      assert Top(lt, posts, n) == {};
    } else {
      var last := HasLast(lt, posts);
      var rest := posts - {last};
      TopSize(lt, rest, n);
      forall p | p in rest
        ensures Rank(lt, posts, p) == Rank(lt, rest, p)
      {
        assert (set q | q in posts && lt(q, p)) == set q | q in rest && lt(q, p);
      }
      assert (set q | q in posts && lt(q, last)) == rest;
      assert Rank(lt, posts, last) == |posts| - 1;
      if |posts| - 1 < n {
        assert Top(lt, posts, n) == Top(lt, rest, n) + {last};
      } else {
        assert Top(lt, posts, n) == Top(lt, rest, n);
      }
    }
  }

  lemma RankGrows(lt: (Ident, Ident) -> bool, posts: set<Ident>, a: Ident, b: Ident)
    requires StrictOrder(lt) && a in posts && lt(a, b)
    ensures Rank(lt, posts, a) < Rank(lt, posts, b)
  {
    var below, more := set p | p in posts && lt(p, a), set p | p in posts && lt(p, b);
    assert below + {a} <= more && a !in below;
    CardinalityGrows(below + {a}, more);
  }

  lemma {:induction false} CardinalityGrows<T>(a: set<T>, b: set<T>)
    requires a <= b
    ensures |a| <= |b|
    decreases |a|
  {
    if a != {} {
      var x :| x in a;
      CardinalityGrows(a - {x}, b - {x});
    }
  }

  // ---- Grouping ----

  function RowsFor(rows: seq<SourceRow>, id: OfferId): seq<SourceRow> {
    if rows == [] then []
    else RowsFor(rows[..|rows| - 1], id) + if rows[|rows| - 1].offer == id then [rows[|rows| - 1]] else []
  }

  lemma {:induction false} RowsForFacts(lt: (Ident, Ident) -> bool, ltId: (OfferId, OfferId) -> bool,
                                        rows: seq<SourceRow>, id: OfferId)
    requires StrictOrder(ltId)
    requires forall i, j :: 0 <= i < j < |rows| ==> RowBefore(lt, ltId, rows[i], rows[j])
    ensures forall r :: r in RowsFor(rows, id) <==> r in rows && r.offer == id
    ensures forall i, j :: 0 <= i < j < |RowsFor(rows, id)| ==> lt(RowsFor(rows, id)[i].post, RowsFor(rows, id)[j].post)
  {
    if rows != [] {
      var before, last := rows[..|rows| - 1], rows[|rows| - 1];
      assert rows == before + [last];
      RowsForFacts(lt, ltId, before, id);
      var own := RowsFor(before, id);
      if last.offer == id {
        forall i | 0 <= i < |own|
          ensures lt(own[i].post, last.post)
        {
          assert own[i] in own;
          var k :| 0 <= k < |before| && before[k] == own[i];
          assert RowBefore(lt, ltId, rows[k], rows[|rows| - 1]);
        }
      }
    }
  }

  function PostsListed(rows: seq<SourceRow>): set<Ident> {
    set i | 0 <= i < |rows| :: rows[i].post
  }

  lemma {:induction false} SortedPosts(lt: (Ident, Ident) -> bool, own: seq<SourceRow>)
    requires StrictOrder(lt) && forall i, j :: 0 <= i < j < |own| ==> lt(own[i].post, own[j].post)
    ensures |PostsListed(own)| == |own|
  {
    if own != [] {
      var n := |own| - 1;
      SortedPosts(lt, own[..n]);
      var fewer := PostsListed(own[..n]);
      assert PostsListed(own) == fewer + {own[n].post};
      assert own[n].post !in fewer;
    }
  }

  /** The rows of one offer in the joint result are for its own first posts. */
  lemma OwnRowsAreTop(db: Db, lt: (Ident, Ident) -> bool, ltId: (OfferId, OfferId) -> bool,
                      ids: seq<OfferId>, rows: seq<SourceRow>, id: OfferId)
    requires StrictOrder(lt) && StrictOrder(ltId) && IsSourceResult(db, lt, ltId, ids, rows) && id in ids
    ensures
      var own := RowsFor(rows, id);
      && (forall i :: 0 <= i < |own| ==> own[i].offer == id && Selected(db, lt, ids, own[i]))
      && PostsListed(own) == Top(lt, Posts(db, id), MAX_SOURCES_PER_OFFER)
  {
    var own, posts := RowsFor(rows, id), Posts(db, id);
    RowsForFacts(lt, ltId, rows, id);
    forall i | 0 <= i < |own|
      ensures own[i].offer == id && Selected(db, lt, ids, own[i])
    {
      assert own[i] in own;
    }
    forall p | p in Top(lt, posts, MAX_SOURCES_PER_OFFER)
      ensures p in PostsListed(own)
    {
      var r := SourceRow(id, p, db.links[(id, p)]);
      assert Selected(db, lt, ids, r);
      var i :| 0 <= i < |own| && own[i] == r;
    }
  }

  /** The rows of one offer among the rows of all are what its own query would answer. */
  lemma GroupIsOwnQuery(db: Db, lt: (Ident, Ident) -> bool, ltId: (OfferId, OfferId) -> bool,
                        ids: seq<OfferId>, rows: seq<SourceRow>, id: OfferId)
    requires StrictOrder(lt) && StrictOrder(ltId) && IsSourceResult(db, lt, ltId, ids, rows) && id in ids
    ensures IsOwnQuery(db, lt, id, RowsFor(rows, id))
  {
    var own, posts := RowsFor(rows, id), Posts(db, id);
    RowsForFacts(lt, ltId, rows, id);
    OwnRowsAreTop(db, lt, ltId, ids, rows, id);
    SortedPosts(lt, own);
    TopSize(lt, posts, MAX_SOURCES_PER_OFFER);
    forall post, i | post in posts && 0 <= i < |own| && (forall j :: 0 <= j < |own| ==> own[j].post != post)
      ensures lt(own[i].post, post)
    {
      assert post !in PostsListed(own);
      if lt(post, own[i].post) {
        RankGrows(lt, posts, post, own[i].post);
      }
    }
  }

  /** All posts of a set, in key order. */
  lemma {:induction false} InOrder(lt: (Ident, Ident) -> bool, posts: set<Ident>) returns (list: seq<Ident>)
    requires StrictOrder(lt)
    ensures |list| == |posts| && forall p :: p in posts <==> p in list
    ensures forall i, j :: 0 <= i < j < |list| ==> lt(list[i], list[j])
    decreases |posts|
  {
    list := [];
    if posts != {} {
      var last := HasLast(lt, posts);
      var before := InOrder(lt, posts - {last});
      assert forall i :: 0 <= i < |before| ==> before[i] in before;
      list := before + [last];
      assert posts == posts - {last} + {last};
    }
  }

  /** Whatever the links, an offer's own query has an answer. */
  lemma OwnQueryHasAnswer(db: Db, lt: (Ident, Ident) -> bool, id: OfferId) returns (own: seq<SourceRow>)
    requires StrictOrder(lt)
    ensures IsOwnQuery(db, lt, id, own)
  {
    var list := InOrder(lt, Posts(db, id));
    var n := Min(MAX_SOURCES_PER_OFFER, |list|);
    assert forall i :: 0 <= i < |list| ==> list[i] in list;
    own := seq(n, i requires 0 <= i < n => SourceRow(id, list[i], db.links[(id, list[i])]));
    assert forall i :: 0 <= i < n ==> list[i] == own[i].post;
    forall post, i | post in Posts(db, id) && 0 <= i < n && (forall j :: 0 <= j < n ==> own[j].post != post)
      ensures lt(own[i].post, post)
    {
      var k :| 0 <= k < |list| && list[k] == post;
      assert k >= n;
    }
  }

  /** An offer's own query has one answer only. */
  lemma {:induction false} OwnQueryIsUnique(db: Db, lt: (Ident, Ident) -> bool, id: OfferId,
                                            a: seq<SourceRow>, b: seq<SourceRow>, n: nat)
    requires StrictOrder(lt) && IsOwnQuery(db, lt, id, a) && IsOwnQuery(db, lt, id, b) && n <= |a|
    ensures |a| == |b| && a[..n] == b[..n]
  {
    if n > 0 {
      OwnQueryIsUnique(db, lt, id, a, b, n - 1);
      var k := n - 1;
      assert forall j :: 0 <= j < k ==> a[j] == a[..k][j] == b[..k][j] == b[j];
      if lt(a[k].post, b[k].post) {
        NotSkipped(db, lt, id, b, a[k].post, k);
      } else if lt(b[k].post, a[k].post) {
        NotSkipped(db, lt, id, a, b[k].post, k);
      }
    }
  }

  /** A post that comes before the k-th listed one is listed before it. */
  lemma NotSkipped(db: Db, lt: (Ident, Ident) -> bool, id: OfferId, own: seq<SourceRow>, post: Ident, k: nat)
    requires StrictOrder(lt) && IsOwnQuery(db, lt, id, own)
    requires k < |own| && post in Posts(db, id) && lt(post, own[k].post)
    ensures exists j :: 0 <= j < k && own[j].post == post
  {
    assert !lt(own[k].post, post);
    var j :| 0 <= j < |own| && own[j].post == post;
    assert j != k && !(k < j);
  }

  // ---- What is listed ----

  /** The offer is sure enough and, if a kind is asked for, of that kind. */
  predicate Asked(row: OfferRow, minimumConfidence: int, kind: Option<string>) {
    row.confidence >= minimumConfidence && (kind.Some? && kind.value != "" ==> row.kind == kind.value)
  }

  lemma {:induction false} DistinctIds(ids: seq<OfferId>)
    requires forall i, j :: 0 <= i < j < |ids| ==> ids[i] != ids[j]
    ensures |set id | id in ids| == |ids|
  {
    if ids != [] {
      var n := |ids| - 1;
      DistinctIds(ids[..n]);
      assert (set id | id in ids) == (set id | id in ids[..n]) + {ids[n]};
    }
  }

  lemma SameSizeSameSet(a: set<OfferId>, b: set<OfferId>)
    requires a <= b && |a| == |b|
    ensures a == b
  {
    if x :| x in b && x !in a {
      CardinalityGrows(a, b - {x});
    }
  }

  /** Only offers asked for are listed, at most as many as the limit, which is at least 1 and at most 500; and an
      offer asked for is missing only from a full list of offers that are at least as new. */
  lemma SelectionExactly(db: Db, minimumConfidence: int, kind: Option<string>, limit: int, ids: seq<OfferId>)
    requires IsSelection(db, minimumConfidence, kind, limit, ids)
    ensures forall i :: 0 <= i < |ids| ==> ids[i] in db.offers && Asked(db.offers[ids[i]], minimumConfidence, kind)
    ensures |ids| <= if limit < 1 then 1 else if limit > 500 then 500 else limit
    ensures forall i, j :: 0 <= i < j < |ids| ==>
      ids[i] != ids[j] && db.offers[ids[i]].updatedAt >= db.offers[ids[j]].updatedAt
    ensures forall id :: id in db.offers && Asked(db.offers[id], minimumConfidence, kind) && id !in ids ==>
      && |ids| == (if limit < 1 then 1 else if limit > 500 then 500 else limit)
      && forall i :: 0 <= i < |ids| ==> db.offers[ids[i]].updatedAt >= db.offers[id].updatedAt
  {
    var all := Matching(db, minimumConfidence, kind);
    DistinctIds(ids);
    if |ids| == |all| {
      assert forall i :: 0 <= i < |ids| ==> ids[i] in all;
      SameSizeSameSet((set id | id in ids), all);
    }
    forall id | id in db.offers && Asked(db.offers[id], minimumConfidence, kind)
      ensures id in all
    {
    }
  }

  method Collect(rows: seq<SourceRow>) returns (sourcesByOffer: map<OfferId, seq<SourceRow>>)
    ensures forall id :: RowsFor(rows, id) == if id in sourcesByOffer then sourcesByOffer[id] else []
  {
    sourcesByOffer := map[];
    for i := 0 to |rows|
      invariant forall id :: RowsFor(rows[..i], id) == if id in sourcesByOffer then sourcesByOffer[id] else []
    {
      assert rows[..i + 1][..i] == rows[..i];
      var id := rows[i].offer;
      var collected := if id in sourcesByOffer then sourcesByOffer[id] else [];
      sourcesByOffer := sourcesByOffer[id := collected + [rows[i]]];
    }
    assert rows[..|rows|] == rows;
  }

  /** `list_offers`, given what the two queries answered: the source rows are collected per
      offer in one pass, and each offer is listed with its own. */
  method ListOffers(db: Db, ids: seq<OfferId>, rows: seq<SourceRow>,
                    minimumConfidence: int, kind: Option<string>, limit: int,
                    ghost lt: (Ident, Ident) -> bool, ghost ltId: (OfferId, OfferId) -> bool)
    returns (result: seq<Listed>)
    requires IsSelection(db, minimumConfidence, kind, limit, ids)
    requires StrictOrder(lt) && StrictOrder(ltId) && IsSourceResult(db, lt, ltId, ids, rows)
    ensures |result| == |ids| <= 500
    ensures forall i :: 0 <= i < |ids| ==>
      && result[i].payload == db.offers[ids[i]].payload && Asked(db.offers[ids[i]], minimumConfidence, kind)
      && IsOwnQuery(db, lt, ids[i], result[i].sources) && |result[i].sources| == Min(20, |Posts(db, ids[i])|)
    ensures forall i, j :: 0 <= i < j < |ids| ==> db.offers[ids[i]].updatedAt >= db.offers[ids[j]].updatedAt
    ensures forall id :: id in db.offers && Asked(db.offers[id], minimumConfidence, kind) && id !in ids ==>
      && |ids| == (if limit < 1 then 1 else if limit > 500 then 500 else limit)
      && forall i :: 0 <= i < |ids| ==> db.offers[ids[i]].updatedAt >= db.offers[id].updatedAt
  {
    SelectionExactly(db, minimumConfidence, kind, limit, ids);
    result := ListSelected(db, ids, rows, lt, ltId);
  }

  /** The loop over the selected rows. */
  method ListSelected(db: Db, ids: seq<OfferId>, rows: seq<SourceRow>,
                      ghost lt: (Ident, Ident) -> bool, ghost ltId: (OfferId, OfferId) -> bool)
    returns (result: seq<Listed>)
    requires forall i :: 0 <= i < |ids| ==> ids[i] in db.offers
    requires StrictOrder(lt) && StrictOrder(ltId) && IsSourceResult(db, lt, ltId, ids, rows)
    ensures |result| == |ids|
    ensures forall i :: 0 <= i < |ids| ==>
      result[i].payload == db.offers[ids[i]].payload && IsOwnQuery(db, lt, ids[i], result[i].sources)
  {
    var sourcesByOffer := Collect(rows);
    result := [];
    for i := 0 to |ids|
      invariant |result| == i
      invariant forall k :: 0 <= k < i ==>
        result[k].payload == db.offers[ids[k]].payload && IsOwnQuery(db, lt, ids[k], result[k].sources)
    {
      var own := if ids[i] in sourcesByOffer then sourcesByOffer[ids[i]] else [];
      assert own == RowsFor(rows, ids[i]);
      GroupIsOwnQuery(db, lt, ltId, ids, rows, ids[i]);
      result := result + [Listed(db.offers[ids[i]].payload, own)];
    }
  }
}
