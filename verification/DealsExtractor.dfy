/** Which offers a post yields, as far as the store can tell: their dedupe keys.

    Regular expressions, case mapping and the wording of an offer are parameters (Rules).
    What is proved is that one post never yields the same dedupe key twice. */
module DealsExtractor {
  import opened Common

  type Time = int

  datatype Ident = Ident(sourceType: string, sourceId: string, messageId: string)

  /** One version of a post; posts are edited, so several versions share an identity. */
  datatype Message = Message(ident: Ident, publishedAt: Time, text: string, url: string,
                             links: seq<string>, formattedCodes: seq<string>)

  /** `payload` stands for everything the row shows besides the columns named here. */
  datatype Offer = Offer(id: string, dedupeKey: string, kind: string, confidence: int, payload: string,
                         ident: Ident, url: string, createdAt: Time, updatedAt: Time)

  datatype Wording = Wording(kind: string, confidence: int, payload: string)

  /** The parts of the extractor that are library behaviour or free of state:
      `upper` strips punctuation and upper-cases, `keywordCodes` are the regular expression's
      findings, `rejected` the stop words and shapes, `typed` whether a post without codes is an offer. */
  datatype Rules = Rules(
    upper: string -> string,
    keywordCodes: Message -> seq<string>,
    rejected: (string, bool) -> bool,
    typed: Message -> bool,
    accepts: Message -> bool,
    wording: (Message, Option<string>, nat) -> Wording,
    hash: string -> string)

  // ---- Tokens and their case ----

  predicate IsUpperLetter(c: char) {
    'A' <= c <= 'Z' || '\U{0410}' <= c <= '\U{042F}' || c == '\U{0401}'
  }

  predicate IsLowerLetter(c: char) {
    'a' <= c <= 'z' || '\U{0430}' <= c <= '\U{044F}' || c == '\U{0451}'
  }

  /** The token alphabet: Latin and Russian letters, digits, underscore and hyphen. */
  predicate IsTokenChar(c: char) {
    IsUpperLetter(c) || IsLowerLetter(c) || '0' <= c <= '9' || c == '_' || c == '-'
  }

  predicate IsToken(s: string) {
    4 <= |s| <= 20 && forall i :: 0 <= i < |s| ==> IsTokenChar(s[i])
  }

  function FoldChar(c: char): char {
    if c == '\U{0401}' then '\U{0451}'
    else if 'A' <= c <= 'Z' || '\U{0410}' <= c <= '\U{042F}' then (c as int + 32) as char
    else c
  }

  function Casefold(s: string): (r: string)
    ensures |r| == |s| && forall i :: 0 <= i < |s| ==> r[i] == FoldChar(s[i])
  {
    if s == [] then [] else [FoldChar(s[0])] + Casefold(s[1..])
  }

  ghost predicate NoLower(s: string) {
    forall i :: 0 <= i < |s| ==> !IsLowerLetter(s[i])
  }

  /** What `str.upper` guarantees: no lower-case letter of the alphabet is left. */
  ghost predicate UpperIsUpper(rules: Rules) {
    forall s :: NoLower(rules.upper(s))
  }

  lemma FoldCharInjective(a: char, b: char)
    requires !IsLowerLetter(a) && !IsLowerLetter(b) && IsTokenChar(a) && IsTokenChar(b)
    requires FoldChar(a) == FoldChar(b)
    ensures a == b
  {
    assert FoldChar(a) as int == FoldChar(b) as int;
  }

  lemma CasefoldInjective(a: string, b: string)
    requires IsToken(a) && IsToken(b) && NoLower(a) && NoLower(b) && Casefold(a) == Casefold(b)
    ensures a == b
  {
    forall i | 0 <= i < |a| ensures a[i] == b[i] {
      assert Casefold(a)[i] == FoldChar(a[i]) && Casefold(b)[i] == FoldChar(b[i]);
      FoldCharInjective(a[i], b[i]);
    }
  }

  // ---- Codes ----

  datatype Candidate = Candidate(raw: string, formatted: bool)

  function Flagged(raws: seq<string>, formatted: bool): seq<Candidate> {
    seq(|raws|, i requires 0 <= i < |raws| => Candidate(raws[i], formatted))
  }

  function Candidates(rules: Rules, m: Message): seq<Candidate> {
    Flagged(m.formattedCodes, true) + Flagged(rules.keywordCodes(m), false)
  }

  predicate ValidCode(rules: Rules, code: string, formatted: bool) {
    IsToken(code) && !rules.rejected(code, formatted)
  }

  function CodesFrom(rules: Rules, candidates: seq<Candidate>): seq<string> {
    if candidates == [] then []
    else
      var before, last := CodesFrom(rules, candidates[..|candidates| - 1]), candidates[|candidates| - 1];
      var code := rules.upper(last.raw);
      if ValidCode(rules, code, last.formatted) && code !in before then before + [code] else before
  }

  /** `_promo_codes`: formatted codes first, then codes after a keyword, each once. */
  method PromoCodes(rules: Rules, m: Message) returns (codes: seq<string>)
    ensures codes == CodesFrom(rules, Candidates(rules, m))
  {
    codes := [];
    var candidates := Candidates(rules, m);
    for i := 0 to |candidates|
      invariant codes == CodesFrom(rules, candidates[..i])
    {
      assert candidates[..i + 1][..i] == candidates[..i];
      var code := rules.upper(candidates[i].raw);
      if ValidCode(rules, code, candidates[i].formatted) && code !in codes {
        codes := codes + [code];
      }
    }
    assert candidates[..|candidates|] == candidates;
  }

  /** A candidate yields a code: its upper-case form, if that is valid where the candidate came from. */
  predicate Yields(rules: Rules, c: Candidate, code: string) {
    code == rules.upper(c.raw) && ValidCode(rules, code, c.formatted)
  }

  ghost predicate Yielded(rules: Rules, candidates: seq<Candidate>, code: string) {
    exists i :: 0 <= i < |candidates| && Yields(rules, candidates[i], code)
  }

  lemma YieldedOneMore(rules: Rules, before: seq<Candidate>, last: Candidate, code: string)
    ensures Yielded(rules, before + [last], code) <==> Yielded(rules, before, code) || Yields(rules, last, code)
  {
    var all := before + [last];
    if Yielded(rules, before, code) {
      var i :| 0 <= i < |before| && Yields(rules, before[i], code);
      assert all[i] == before[i];
    }
    assert all[|before|] == last;
  }

  /** The codes are exactly those that some candidate yields, each once. */
  lemma {:induction false} CodesExactly(rules: Rules, candidates: seq<Candidate>)
    ensures
      var codes := CodesFrom(rules, candidates);
      && (forall i, j :: 0 <= i < j < |codes| ==> codes[i] != codes[j])
      && (forall code :: code in codes <==> Yielded(rules, candidates, code))
  {
    if candidates != [] {
      var before, last := candidates[..|candidates| - 1], candidates[|candidates| - 1];
      assert candidates == before + [last];
      CodesExactly(rules, before);
      forall code
        ensures code in CodesFrom(rules, candidates) <==> Yielded(rules, candidates, code)
      {
        YieldedOneMore(rules, before, last, code);
      }
    }
  }

  /** The valid codes among some raw findings, in order and with repetitions. */
  function ValidIn(rules: Rules, raws: seq<string>, formatted: bool): seq<string> {
    if raws == [] then []
    else
      var before, code := ValidIn(rules, raws[..|raws| - 1], formatted), rules.upper(raws[|raws| - 1]);
      if ValidCode(rules, code, formatted) then before + [code] else before
  }

  lemma {:induction false} ValidInExactly(rules: Rules, raws: seq<string>, formatted: bool, code: string)
    ensures code in ValidIn(rules, raws, formatted)
       <==> ValidCode(rules, code, formatted) && exists i :: 0 <= i < |raws| && rules.upper(raws[i]) == code
  {
    if raws != [] {
      var n := |raws| - 1;
      ValidInExactly(rules, raws[..n], formatted, code);
      if i :| 0 <= i < |raws| && rules.upper(raws[i]) == code {
        assert i < n ==> rules.upper(raws[..n][i]) == code;
      }
    }
  }

  lemma {:induction false} CodesExtend(rules: Rules, base: seq<Candidate>, firsts: seq<string>,
                                       raws: seq<string>, formatted: bool)
    requires CodesFrom(rules, base) == Distinct(firsts)
    ensures CodesFrom(rules, base + Flagged(raws, formatted)) == Distinct(firsts + ValidIn(rules, raws, formatted))
  {
    if raws == [] {
      assert base + Flagged(raws, formatted) == base && firsts + [] == firsts;
    } else {
      var n := |raws| - 1;
      var all, valid := base + Flagged(raws, formatted), ValidIn(rules, raws[..n], formatted);
      CodesExtend(rules, base, firsts, raws[..n], formatted);
      assert all[..|all| - 1] == base + Flagged(raws[..n], formatted);
      var code := rules.upper(raws[n]);
      if ValidCode(rules, code, formatted) {
        assert firsts + (valid + [code]) == firsts + valid + [code];
        assert (firsts + valid + [code])[..|firsts + valid|] == firsts + valid;
      }
    }
  }

  /** The code is a token and not one of the words and shapes that are no codes where it was found. */
  ghost predicate Acceptable(rules: Rules, code: string, formatted: bool) {
    && 4 <= |code| <= 20 && !rules.rejected(code, formatted)
    && forall i :: 0 <= i < |code| ==> InAlphabet(code[i])
  }

  /** Latin and Russian letters of both cases, digits, underscore and hyphen. */
  predicate InAlphabet(c: char) {
    || 'A' <= c <= 'Z' || 'a' <= c <= 'z' || '0' <= c <= '9' || c == '_' || c == '-'
    || '\U{0410}' <= c <= '\U{044F}' || c == '\U{0401}' || c == '\U{0451}'
  }

  ghost predicate Found(rules: Rules, raws: seq<string>, formatted: bool, code: string) {
    Acceptable(rules, code, formatted) && exists i :: 0 <= i < |raws| && rules.upper(raws[i]) == code
  }

  /** A string is a code of a post if and only if it is the upper-case form of a formatted code or of a keyword
      finding and acceptable as such. */
  lemma PostCodesExactly(rules: Rules, m: Message, code: string)
    ensures code in CodesFrom(rules, Candidates(rules, m)) <==>
      Found(rules, m.formattedCodes, true, code) || Found(rules, rules.keywordCodes(m), false, code)
  {
    var formatted, keyword := ValidIn(rules, m.formattedCodes, true), ValidIn(rules, rules.keywordCodes(m), false);
    CodesInOrder(rules, m);
    ValidInExactly(rules, m.formattedCodes, true, code);
    ValidInExactly(rules, rules.keywordCodes(m), false, code);
    assert code in formatted + keyword <==> code in formatted || code in keyword;
    assert ValidCode(rules, code, true) <==> Acceptable(rules, code, true);
    assert ValidCode(rules, code, false) <==> Acceptable(rules, code, false);
  }

  /** The codes of a post are the valid ones among its formatted codes and then among the keyword findings,
      in the order in which they first occur there. */
  lemma CodesInOrder(rules: Rules, m: Message)
    ensures ListsFirsts(ValidIn(rules, m.formattedCodes, true) + ValidIn(rules, rules.keywordCodes(m), false),
                        CodesFrom(rules, Candidates(rules, m)))
  {
    var formatted, keyword := m.formattedCodes, rules.keywordCodes(m);
    CodesExtend(rules, [], [], formatted, true);
    assert [] + Flagged(formatted, true) == Flagged(formatted, true);
    assert [] + ValidIn(rules, formatted, true) == ValidIn(rules, formatted, true);
    CodesExtend(rules, Flagged(formatted, true), ValidIn(rules, formatted, true), keyword, false);
    DistinctListsFirsts(ValidIn(rules, formatted, true) + ValidIn(rules, keyword, false));
  }

  // ---- Dedupe keys and offers ----

  function PromoKey(code: string): string {
    "promo:" + Casefold(code)
  }

  function SourceKey(ident: Ident): string {
    "source:" + ident.sourceType + ":" + ident.sourceId + ":" + ident.messageId + ":0"
  }

  /** The dedupe keys of a post, in the order of its offers. */
  function KeysOf(rules: Rules, m: Message): seq<string> {
    var codes := CodesFrom(rules, Candidates(rules, m));
    if !rules.accepts(m) then []
    else if codes != [] then seq(|codes|, i requires 0 <= i < |codes| => PromoKey(codes[i]))
    else if rules.typed(m) then [SourceKey(m.ident)]
    else []
  }

  function BuildOffer(rules: Rules, m: Message, code: Option<string>, index: nat, now: Time): Offer {
    var key := if code.Some? then PromoKey(code.value) else SourceKey(m.ident);
    var w := rules.wording(m, code, index);
    Offer(rules.hash(key), key, w.kind, w.confidence, w.payload, m.ident, m.url, now, now)
  }

  function CodeOffer(rules: Rules, m: Message, codes: seq<string>, now: Time, k: nat): Offer
    requires k < |codes|
  {
    BuildOffer(rules, m, Some(codes[k]), k, now)
  }

  /** The offers for the first `n` codes. */
  function CodeOffers(rules: Rules, m: Message, codes: seq<string>, now: Time, n: nat): (offers: seq<Offer>)
    requires n <= |codes|
    ensures |offers| == n
    ensures forall k :: 0 <= k < n ==> offers[k] == CodeOffer(rules, m, codes, now, k)
  {
    if n == 0 then [] else CodeOffers(rules, m, codes, now, n - 1) + [CodeOffer(rules, m, codes, now, n - 1)]
  }

  /** `extract` on a post that the filter accepted. */
  function OffersOf(rules: Rules, m: Message, now: Time): (offers: seq<Offer>)
    ensures rules.accepts(m) ==> |offers| == |KeysOf(rules, m)|
    ensures rules.accepts(m) ==> forall i :: 0 <= i < |offers| ==>
      offers[i].dedupeKey == KeysOf(rules, m)[i] && offers[i].id == rules.hash(KeysOf(rules, m)[i])
      && offers[i].ident == m.ident && offers[i].url == m.url
  {
    var codes := CodesFrom(rules, Candidates(rules, m));
    if codes != [] then CodeOffers(rules, m, codes, now, |codes|)
    else if rules.typed(m) then [BuildOffer(rules, m, None, 0, now)]
    else []
  }

  method BuildOffers(rules: Rules, m: Message, codes: seq<string>, now: Time) returns (offers: seq<Offer>)
    ensures offers == CodeOffers(rules, m, codes, now, |codes|)
  {
    offers := [];
    for i := 0 to |codes|
      invariant offers == CodeOffers(rules, m, codes, now, i)
    {
      var offer := CodeOffer(rules, m, codes, now, i);
      offers := offers + [offer];
    }
  }

  /** `extract` with its loops. */
  method Extract(rules: Rules, m: Message, now: Time) returns (offers: seq<Offer>)
    ensures offers == OffersOf(rules, m, now)
  {
    var codes := PromoCodes(rules, m);
    if codes != [] {
      offers := BuildOffers(rules, m, codes, now);
    } else if rules.typed(m) {
      offers := [BuildOffer(rules, m, None, 0, now)];
    } else {
      offers := [];
    }
  }

  /** What the offers of an accepted post show: each its own code's wording at its own place, and the
      post's identity, address and time of extraction. */
  lemma OffersTell(rules: Rules, m: Message, now: Time)
    requires rules.accepts(m)
    ensures
      var codes, offers := CodesFrom(rules, Candidates(rules, m)), OffersOf(rules, m, now);
      && |offers| == (if codes != [] then |codes| else if rules.typed(m) then 1 else 0)
      && forall i :: 0 <= i < |offers| ==>
           var o, code := offers[i], if codes == [] then None else Some(codes[i]);
           && Wording(o.kind, o.confidence, o.payload) == rules.wording(m, code, i)
           && o.ident == m.ident && o.url == m.url && o.createdAt == now && o.updatedAt == now
  {
  }

  // ---- Keys of different posts ----

  predicate NoColon(s: string) {
    ':' !in s
  }

  /** The parts in front of the message id can be read back from the key. */
  predicate PlainIdent(ident: Ident) {
    NoColon(ident.sourceType) && NoColon(ident.sourceId)
  }

  function FirstColon(s: string): nat {
    if s == "" || s[0] == ':' then 0 else 1 + FirstColon(s[1..])
  }

  lemma {:induction false} FirstColonEnds(a: string, x: string)
    requires NoColon(a)
    ensures FirstColon(a + [':'] + x) == |a|
  {
    if a != "" {
      assert (a + [':'] + x)[1..] == a[1..] + [':'] + x;
      FirstColonEnds(a[1..], x);
    }
  }

  /** A colon ends the part in front of it in one way only. */
  lemma ColonSplits(a: string, b: string, x: string, y: string)
    requires NoColon(a) && NoColon(b) && a + [':'] + x == b + [':'] + y
    ensures a == b && x == y
  {
    var all := a + [':'] + x;
    FirstColonEnds(a, x);
    FirstColonEnds(b, y);
    assert a == all[..|a|] && b == all[..|b|] && x == all[|a| + 1..] && y == all[|b| + 1..];
  }

  lemma SourceKeyParts(ident: Ident)
    ensures SourceKey(ident)
         == "source:" + (ident.sourceType + [':'] + (ident.sourceId + [':'] + (ident.messageId + ":0")))
  {
    var s, t, u, v := "source:", ident.sourceType, ident.sourceId, ident.messageId;
    assert s + t + ":" + u + ":" + v + ":0" == s + (t + [':'] + (u + [':'] + (v + ":0")));
  }

  lemma SameEnding(s: string, x: string, y: string)
    requires s + x == s + y
    ensures x == y
  {
    assert x == (s + x)[|s|..] && y == (s + y)[|s|..];
  }

  lemma SameStart(s: string, x: string, y: string)
    requires x + s == y + s
    ensures x == y
  {
    assert |x + s| == |y + s|;
    assert x == (x + s)[..|x|] && y == (y + s)[..|y|];
  }

  /** Posts of different identity never share a source key, if no colon stands in front of their ids. */
  lemma SourceKeysApart(a: Ident, b: Ident)
    requires PlainIdent(a) && PlainIdent(b) && SourceKey(a) == SourceKey(b)
    ensures a == b
  {
    var aid, bid := a.messageId + ":0", b.messageId + ":0";
    var arest, brest := a.sourceId + [':'] + aid, b.sourceId + [':'] + bid;
    SourceKeyParts(a);
    SourceKeyParts(b);
    SameEnding("source:", a.sourceType + [':'] + arest, b.sourceType + [':'] + brest);
    ColonSplits(a.sourceType, b.sourceType, arest, brest);
    ColonSplits(a.sourceId, b.sourceId, aid, bid);
    SameStart(":0", a.messageId, b.messageId);
  }

  /** With a colon there, two posts can share one. */
  lemma ColonsCanCollide(a: string, b: string, c: string, d: string)
    ensures SourceKey(Ident(a + ":" + b, c, d)) == SourceKey(Ident(a, b + ":" + c, d))
  {
    assert "source:" + (a + ":" + b) + ":" + c + ":" + d + ":0" == "source:" + a + ":" + (b + ":" + c) + ":" + d + ":0";
  }

  lemma SourceIsNoPromo(ident: Ident, code: string)
    ensures SourceKey(ident) != PromoKey(code)
  {
    assert SourceKey(ident)[0] == 's' && PromoKey(code)[0] == 'p';
  }

  /** Promo keys are shared by exactly the codes that differ in case only. */
  lemma PromoKeysMeet(a: string, b: string)
    ensures PromoKey(a) == PromoKey(b) <==> Casefold(a) == Casefold(b)
  {
    assert PromoKey(a)[6..] == Casefold(a) && PromoKey(b)[6..] == Casefold(b);
  }

  lemma FoldedIsLower(c: char)
    requires IsTokenChar(c)
    ensures !IsUpperLetter(FoldChar(c))
    ensures if IsUpperLetter(c) then IsLowerLetter(FoldChar(c)) else FoldChar(c) == c
  {
  }

  /** Which keys a post has: those of its codes, or its own source key if it has none but is an offer. */
  lemma KeysExactly(rules: Rules, m: Message, key: string)
    ensures
      var codes := CodesFrom(rules, Candidates(rules, m));
      key in KeysOf(rules, m) <==>
        && rules.accepts(m)
        && if codes == [] then rules.typed(m) && key == SourceKey(m.ident)
           else exists i :: 0 <= i < |codes| && key == PromoKey(codes[i])
  {
    var codes, keys := CodesFrom(rules, Candidates(rules, m)), KeysOf(rules, m);
    if rules.accepts(m) && codes != [] {
      assert forall i :: 0 <= i < |codes| ==> keys[i] == PromoKey(codes[i]);
    }
  }

  /** So a source key belongs to its own post alone. */
  lemma SourceKeyIsOwn(rules: Rules, m: Message, post: Ident)
    requires PlainIdent(m.ident) && PlainIdent(post) && SourceKey(post) in KeysOf(rules, m)
    ensures m.ident == post
  {
    var codes := CodesFrom(rules, Candidates(rules, m));
    KeysExactly(rules, m, SourceKey(post));
    if codes == [] {
      SourceKeysApart(m.ident, post);
    } else {
      var i :| 0 <= i < |codes| && SourceKey(post) == PromoKey(codes[i]);
      SourceIsNoPromo(post, codes[i]);
    }
  }

  lemma CodeIsUpper(rules: Rules, m: Message, i: nat)
    requires UpperIsUpper(rules) && i < |CodesFrom(rules, Candidates(rules, m))|
    ensures
      var code := CodesFrom(rules, Candidates(rules, m))[i];
      NoLower(code) && IsToken(code)
  {
    var candidates, codes := Candidates(rules, m), CodesFrom(rules, Candidates(rules, m));
    CodesExactly(rules, candidates);
    assert codes[i] in codes;
    var k :| 0 <= k < |candidates| && Yields(rules, candidates[k], codes[i]);
    assert NoLower(rules.upper(candidates[k].raw));
  }

  /** Main result: the offers of one post have pairwise different dedupe keys, although keys are
      folded to lower case after codes were compared in upper case. */
  lemma KeysDistinct(rules: Rules, m: Message)
    requires UpperIsUpper(rules)
    ensures forall i, j :: 0 <= i < j < |KeysOf(rules, m)| ==> KeysOf(rules, m)[i] != KeysOf(rules, m)[j]
  {
    var codes, keys := CodesFrom(rules, Candidates(rules, m)), KeysOf(rules, m);
    CodesExactly(rules, Candidates(rules, m));
    forall i, j | 0 <= i < j < |keys|
      ensures keys[i] != keys[j]
    {
      assert keys[i] == PromoKey(codes[i]) && keys[j] == PromoKey(codes[j]);
      if keys[i] == keys[j] {
        assert keys[i][6..] == Casefold(codes[i]) && keys[j][6..] == Casefold(codes[j]);
        CodeIsUpper(rules, m, i);
        CodeIsUpper(rules, m, j);
        CasefoldInjective(codes[i], codes[j]);
      }
    }
  }
}
