/** Greedy matching of merchant names in a post.

    Aliases are tried from the longest to the shortest; each claims its first occurrence unless
    that overlaps text already claimed. */
module Merchants {
  import opened Common

  type Merchant = (string, string)

  /** An alias in folded form with the merchant it names. */
  datatype Alias = Alias(text: string, merchant: Merchant)

  datatype Range = Range(start: nat, end: nat)

  predicate OccursAt(text: string, alias: string, i: int) {
    0 <= i && i + |alias| <= |text| && text[i..i + |alias|] == alias
  }

  /** An alias occurs exactly where the text can be cut in front of it and behind it. */
  lemma OccursExactly(text: string, alias: string, i: nat)
    ensures OccursAt(text, alias, i)
       <==> exists before: string, after: string :: |before| == i && text == before + alias + after
  {
    if OccursAt(text, alias, i) {
      assert text == text[..i] + alias + text[i + |alias|..];
    }
    if before: string, after: string :| |before| == i && text == before + alias + after {
      assert text[i..i + |alias|] == alias;
    }
  }

  /** `str.find`: the first occurrence, if any. */
  method Find(text: string, alias: string) returns (found: Option<nat>)
    ensures found.Some? ==> OccursAt(text, alias, found.value)
    ensures found.Some? ==> forall i :: 0 <= i < found.value ==> !OccursAt(text, alias, i)
    ensures found.None? ==> forall i :: !OccursAt(text, alias, i)
  {
    var i := 0;
    while i + |alias| <= |text|
      invariant forall k :: 0 <= k < i ==> !OccursAt(text, alias, k)
    {
      if text[i..i + |alias|] == alias {
        return Some(i);
      }
      i := i + 1;
    }
    return None;
  }

  /** The source's overlap test. */
  predicate Overlap(a: Range, b: Range) {
    a.start < b.end && a.end > b.start
  }

  /** Two occurrences overlap exactly if they have a place in common. */
  lemma OverlapExactly(a: Range, b: Range)
    requires a.start < a.end && b.start < b.end
    ensures Overlap(a, b) <==> exists i: nat :: InRange(a, i) && InRange(b, i)
  {
    if Overlap(a, b) {
      var i := if a.start < b.start then b.start else a.start;
      assert InRange(a, i) && InRange(b, i);
    }
  }

  predicate InRange(r: Range, i: nat) {
    r.start <= i < r.end
  }

  ghost predicate FirstRange(text: string, alias: string, r: Range) {
    && OccursAt(text, alias, r.start) && r.end == r.start + |alias|
    && forall i :: 0 <= i < r.start ==> !OccursAt(text, alias, i)
  }

  ghost predicate LongestFirst(aliases: seq<Alias>) {
    forall i, j :: 0 <= i < j < |aliases| ==> |aliases[i].text| >= |aliases[j].text|
  }

  /** A choice among the first `n` aliases, given by their positions: each at its first
      occurrence, no two overlapping, and every alias left out for a reason. */
  ghost predicate IsGreedyChoice(text: string, aliases: seq<Alias>, n: nat, chosen: seq<nat>, ranges: seq<Range>) {
    && |chosen| == |ranges| && n <= |aliases|
    && (forall k :: 0 <= k < |chosen| ==> chosen[k] < n && FirstRange(text, aliases[chosen[k]].text, ranges[k]))
    && (forall k, l :: 0 <= k < l < |chosen| ==> chosen[k] < chosen[l] && !Overlap(ranges[k], ranges[l]))
    && (forall a :: 0 <= a < n && a !in chosen ==> LeftOut(text, aliases, chosen, ranges, a))
  }

  /** It does not occur, or its first occurrence overlaps a chosen one at least as long. */
  ghost predicate LeftOut(text: string, aliases: seq<Alias>, chosen: seq<nat>, ranges: seq<Range>, a: nat)
    requires a < |aliases|
  {
    || (forall i :: !OccursAt(text, aliases[a].text, i))
    || (exists k, r ::
          && 0 <= k < |chosen| && k < |ranges| && chosen[k] < a
          && FirstRange(text, aliases[a].text, r) && Overlap(r, ranges[k])
          && ranges[k].end - ranges[k].start >= r.end - r.start)
  }

  /** The merchants that the chosen aliases name, in order of choice. */
  function Named(aliases: seq<Alias>, chosen: seq<nat>): seq<Merchant>
    requires forall k :: 0 <= k < |chosen| ==> chosen[k] < |aliases|
  {
    seq(|chosen|, k requires 0 <= k < |chosen| => aliases[chosen[k]].merchant)
  }

  /** `_merchant_matches` on the folded text. */
  method MerchantMatches(text: string, aliases: seq<Alias>)
    returns (result: seq<Merchant>, chosen: seq<nat>, ranges: seq<Range>)
    requires LongestFirst(aliases)
    ensures IsGreedyChoice(text, aliases, |aliases|, chosen, ranges)
    ensures ListsFirsts(Named(aliases, chosen), result)
  {
    result, chosen, ranges := [], [], [];
    for a := 0 to |aliases|
      invariant IsGreedyChoice(text, aliases, a, chosen, ranges)
      invariant result == Distinct(Named(aliases, chosen))
    {
      var start := Find(text, aliases[a].text);
      if start.None? {
        Skip(text, aliases, a, chosen, ranges);
        continue;
      }
      var r := Range(start.value, start.value + |aliases[a].text|);
      if exists k :: 0 <= k < |ranges| && Overlap(r, ranges[k]) {
        SkipOverlapping(text, aliases, a, chosen, ranges, r);
        continue;
      }
      Choose(text, aliases, a, chosen, ranges, r);
      NamedOneMore(aliases, chosen, a);
      ranges := ranges + [r];
      chosen := chosen + [a];
      if aliases[a].merchant !in result {
        result := result + [aliases[a].merchant];
      }
    }
    DistinctListsFirsts(Named(aliases, chosen));
  }

  /** `_merchant`: the merchant of the first alias chosen, which is the longest. */
  method FirstMerchant(text: string, aliases: seq<Alias>) returns (merchant: Option<Merchant>, ghost chosen: seq<nat>)
    requires LongestFirst(aliases)
    ensures merchant.None? <==> forall a, i :: 0 <= a < |aliases| ==> !OccursAt(text, aliases[a].text, i)
    ensures merchant.Some? ==>
      exists a, r :: IsFirstFound(text, aliases, a, r) && merchant.value == aliases[a].merchant
  {
    ghost var ranges;
    var matches;
    matches, chosen, ranges := MerchantMatches(text, aliases);
    FirstIsFound(text, aliases, matches, chosen, ranges);
    merchant := if matches == [] then None else Some(matches[0]);
  }

  /** The first alias that occurs, at its first occurrence; no longer alias occurs at all. */
  ghost predicate IsFirstFound(text: string, aliases: seq<Alias>, a: int, r: Range) {
    && 0 <= a < |aliases| && FirstRange(text, aliases[a].text, r)
    && forall b, i :: 0 <= b < a ==> !OccursAt(text, aliases[b].text, i)
  }

  lemma FirstIsFound(text: string, aliases: seq<Alias>, matches: seq<Merchant>, chosen: seq<nat>, ranges: seq<Range>)
    requires IsGreedyChoice(text, aliases, |aliases|, chosen, ranges) && ListsFirsts(Named(aliases, chosen), matches)
    ensures matches == [] <==> forall a, i :: 0 <= a < |aliases| ==> !OccursAt(text, aliases[a].text, i)
    ensures matches != [] ==>
      exists a, r :: IsFirstFound(text, aliases, a, r) && matches[0] == aliases[a].merchant
  {
    var named := Named(aliases, chosen);
    FirstsOfSome(named, matches);
    if chosen == [] {
      forall a, i | 0 <= a < |aliases|
        ensures !OccursAt(text, aliases[a].text, i)
      {
        assert LeftOut(text, aliases, chosen, ranges, a);
      }
    } else {
      NoneBefore(text, aliases, chosen, ranges);
      assert IsFirstFound(text, aliases, chosen[0], ranges[0]);
      assert OccursAt(text, aliases[chosen[0]].text, ranges[0].start);
    }
  }

  /** Aliases before the first chosen one were left out for not occurring. */
  lemma NoneBefore(text: string, aliases: seq<Alias>, chosen: seq<nat>, ranges: seq<Range>)
    requires IsGreedyChoice(text, aliases, |aliases|, chosen, ranges) && chosen != []
    ensures forall b, i :: 0 <= b < chosen[0] ==> !OccursAt(text, aliases[b].text, i)
  {
    forall b, i | 0 <= b < chosen[0]
      ensures !OccursAt(text, aliases[b].text, i)
    {
      assert forall k :: 0 < k < |chosen| ==> chosen[0] < chosen[k];
      assert b !in chosen && LeftOut(text, aliases, chosen, ranges, b);
    }
  }

  lemma NamedOneMore(aliases: seq<Alias>, chosen: seq<nat>, a: nat)
    requires a < |aliases| && forall k :: 0 <= k < |chosen| ==> chosen[k] < |aliases|
    ensures
      var before, m := Distinct(Named(aliases, chosen)), aliases[a].merchant;
      Distinct(Named(aliases, chosen + [a])) == if m in before then before else before + [m]
  {
    assert Named(aliases, chosen + [a])[..|chosen|] == Named(aliases, chosen);
  }

  lemma Skip(text: string, aliases: seq<Alias>, a: nat, chosen: seq<nat>, ranges: seq<Range>)
    requires IsGreedyChoice(text, aliases, a, chosen, ranges)
    requires a < |aliases| && LeftOut(text, aliases, chosen, ranges, a)
    ensures IsGreedyChoice(text, aliases, a + 1, chosen, ranges)
  {
  }

  lemma SkipOverlapping(text: string, aliases: seq<Alias>, a: nat, chosen: seq<nat>, ranges: seq<Range>, r: Range)
    requires IsGreedyChoice(text, aliases, a, chosen, ranges) && a < |aliases| && LongestFirst(aliases)
    requires FirstRange(text, aliases[a].text, r) && exists k :: 0 <= k < |ranges| && Overlap(r, ranges[k])
    ensures IsGreedyChoice(text, aliases, a + 1, chosen, ranges)
  {
    var k :| 0 <= k < |ranges| && Overlap(r, ranges[k]);
    assert FirstRange(text, aliases[chosen[k]].text, ranges[k]);
    assert LeftOut(text, aliases, chosen, ranges, a);
    Skip(text, aliases, a, chosen, ranges);
  }

  /** Reasons for leaving an alias out stay reasons when more is chosen. */
  lemma ReasonStays(text: string, aliases: seq<Alias>, chosen: seq<nat>, ranges: seq<Range>, a: nat, r: Range, b: nat)
    requires |chosen| == |ranges| && b < |aliases| && LeftOut(text, aliases, chosen, ranges, b)
    ensures LeftOut(text, aliases, chosen + [a], ranges + [r], b)
  {
    if !(forall i :: !OccursAt(text, aliases[b].text, i)) {
      var k, s :| 0 <= k < |chosen| && k < |ranges| && chosen[k] < b
        && FirstRange(text, aliases[b].text, s) && Overlap(s, ranges[k])
        && ranges[k].end - ranges[k].start >= s.end - s.start;
      assert (chosen + [a])[k] == chosen[k] && (ranges + [r])[k] == ranges[k];
    }
  }

  lemma Choose(text: string, aliases: seq<Alias>, a: nat, chosen: seq<nat>, ranges: seq<Range>, r: Range)
    requires IsGreedyChoice(text, aliases, a, chosen, ranges) && a < |aliases|
    requires FirstRange(text, aliases[a].text, r) && forall k :: 0 <= k < |ranges| ==> !Overlap(r, ranges[k])
    ensures IsGreedyChoice(text, aliases, a + 1, chosen + [a], ranges + [r])
  {
    assert (chosen + [a])[|chosen|] == a;
    forall b | 0 <= b < a + 1 && b !in chosen + [a]
      ensures LeftOut(text, aliases, chosen + [a], ranges + [r], b)
    {
      assert forall c :: c in chosen ==> c in chosen + [a];
      ReasonStays(text, aliases, chosen, ranges, a, r, b);
    }
  }
}
