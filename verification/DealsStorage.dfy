/** The three linked tables of the deals store.

    Each method is one transaction: it commits as a whole or leaves the tables as they were.
    The theorems are about any sequence of transactions, complete or broken off between two. */
module DealsStorage {
  import opened Common
  import opened DealsExtractor

  datatype Status = Filtered | NoOffers | Processed

  datatype MessageRow = MessageRow(message: Message, status: Status)

  datatype OfferRow = OfferRow(dedupeKey: string, kind: string, confidence: int, payload: string,
                               createdAt: Time, updatedAt: Time)

  type OfferId = string

  /** `links` is the table offer_sources: its primary key pairs an offer with a post. */
  datatype Db = Db(
    messages: map<Ident, MessageRow>,
    offers: map<OfferId, OfferRow>,
    links: map<(OfferId, Ident), string>)

  const Empty := Db(map[], map[], map[])

  datatype SaveOutcome = Created | Duplicate | IntegrityError

  // ---- The transactions on values ----

  predicate HasLink(links: map<(OfferId, Ident), string>, id: OfferId) {
    exists l :: l in links && l.0 == id
  }

  function WithoutPost(links: map<(OfferId, Ident), string>, post: Ident): map<(OfferId, Ident), string> {
    map l | l in links && l.1 != post :: links[l]
  }

  /** Detach a post: its links go, and so do the offers that only it had. */
  function Prepare(db: Db, post: Ident): Db {
    var links := WithoutPost(db.links, post);
    db.(links := links,
        offers := map id | id in db.offers && ((id, post) in db.links ==> HasLink(links, id)) :: db.offers[id])
  }

  function SaveMessage(db: Db, m: Message, status: Status): Db {
    db.(messages := db.messages[m.ident := MessageRow(m, status)])
  }

  ghost predicate KeyStored(db: Db, key: string) {
    exists id :: id in db.offers && db.offers[id].dedupeKey == key
  }

  ghost function IdOfKey(db: Db, key: string): (id: OfferId)
    requires KeyStored(db, key)
    ensures id in db.offers && db.offers[id].dedupeKey == key
  {
    var id :| id in db.offers && db.offers[id].dedupeKey == key;
    id
  }

  /** The row after a save that found one: replaced, except for its creation time, when the
      new confidence is at least the stored one. */
  function Merged(row: OfferRow, o: Offer): OfferRow {
    if o.confidence >= row.confidence
    then OfferRow(row.dedupeKey, o.kind, o.confidence, o.payload, row.createdAt, o.updatedAt)
    else row
  }

  function Linked(links: map<(OfferId, Ident), string>, id: OfferId, o: Offer): map<(OfferId, Ident), string> {
    if (id, o.ident) in links then links else links[(id, o.ident) := o.url]
  }

  ghost function SaveOffer(db: Db, o: Offer): (Db, SaveOutcome) {
    if KeyStored(db, o.dedupeKey) then
      var id := IdOfKey(db, o.dedupeKey);
      (db.(offers := db.offers[id := Merged(db.offers[id], o)], links := Linked(db.links, id, o)), Duplicate)
    else if o.id in db.offers then (db, IntegrityError)
    else
      var row := OfferRow(o.dedupeKey, o.kind, o.confidence, o.payload, o.createdAt, o.updatedAt);
      (db.(offers := db.offers[o.id := row], links := Linked(db.links, o.id, o)), Created)
  }

  /** The dedupe key column is unique. */
  ghost predicate UniqueKeys(db: Db) {
    forall a, b :: a in db.offers && b in db.offers && db.offers[a].dedupeKey == db.offers[b].dedupeKey ==> a == b
  }

  // ---- The tables, changed in place ----

  class Storage {
    var messages: map<Ident, MessageRow>
    var offers: map<OfferId, OfferRow>
    var links: map<(OfferId, Ident), string>

    function Contents(): Db
      reads this
    {
      Db(messages, offers, links)
    }

    constructor ()
      ensures Contents() == Empty
    {
      messages, offers, links := map[], map[], map[];
    }

    method IsMessageKnown(m: Message) returns (known: bool)
      ensures known == (m.ident in Contents().messages)
    {
      known := m.ident in messages;
    }

    method Counts() returns (messageCount: nat, offerCount: nat)
      ensures messageCount == |Contents().messages| && offerCount == |Contents().offers|
    {
      messageCount, offerCount := |messages|, |offers|;
    }

    method StoreMessage(m: Message, status: Status)
      modifies this
      ensures Contents() == SaveMessage(old(Contents()), m, status)
    {
      messages := messages[m.ident := MessageRow(m, status)];
    }

    method PrepareMessageRefresh(m: Message)
      modifies this
      ensures Contents() == Prepare(old(Contents()), m.ident)
    {
      var todo := set l | l in links && l.1 == m.ident :: l.0;
      links := WithoutPost(links, m.ident);
      while todo != {}
        invariant messages == old(messages) && links == WithoutPost(old(links), m.ident)
        invariant todo <= set l | l in old(links) && l.1 == m.ident :: l.0
        invariant offers.Keys <= old(offers).Keys && forall id :: id in offers ==> offers[id] == old(offers)[id]
        invariant forall id :: id in old(offers) ==>
          (id in offers <==> ((id, m.ident) in old(links) && id !in todo ==> HasLink(links, id)))
        decreases todo
      {
        var id :| id in todo;
        if !HasLink(links, id) {
          offers := offers - {id};
        }
        todo := todo - {id};
      }
    }

    method FindKey(key: string) returns (id: Option<OfferId>)
      ensures id.Some? ==> id.value in offers && offers[id.value].dedupeKey == key
      ensures id.None? ==> !KeyStored(Contents(), key)
    {
      var todo := offers.Keys;
      while todo != {}
        invariant todo <= offers.Keys
        invariant forall i :: i in offers && i !in todo ==> offers[i].dedupeKey != key
      {
        var i :| i in todo;
        if offers[i].dedupeKey == key {
          return Some(i);
        }
        todo := todo - {i};
      }
      return None;
    }

    method StoreOffer(o: Offer) returns (outcome: SaveOutcome)
      requires UniqueKeys(Contents())
      modifies this
      ensures (Contents(), outcome) == SaveOffer(old(Contents()), o)
    {
      var existing := FindKey(o.dedupeKey);
      var offerId := o.id;
      if existing.None? {
        if o.id in offers {
          return IntegrityError;
        }
        offers := offers[o.id := OfferRow(o.dedupeKey, o.kind, o.confidence, o.payload, o.createdAt, o.updatedAt)];
        outcome := Created;
      } else {
        offerId := existing.value;
        var row := offers[offerId];
        if o.confidence >= row.confidence {
          var updated := OfferRow(row.dedupeKey, o.kind, o.confidence, o.payload, row.createdAt, o.updatedAt);
          offers := offers[offerId := updated];
        } else {
          assert offers[offerId := row] == offers;
        }
        outcome := Duplicate;
      }
      if (offerId, o.ident) !in links {
        links := links[(offerId, o.ident) := o.url];
      }
    }
  }
}
