/** Inside a long run of one byte the search finds the longest possible match one byte back. */
module LongRuns {
  import opened Prelude
  import opened Symbols
  import opened Tokens
  import opened HashChain
  import opened MatchSearch
  import opened MatchFinder
  import opened Nearest

  ghost predicate AllEqual(data: seq<byte>, from: nat, to: nat) {
    to < |data| && forall k :: from <= k <= to ==> data[k] == data[from]
  }

  lemma OneBackMatches(data: seq<byte>, pos: nat, k: nat)
    requires pos > 0 && k <= MAX_MATCH && AllEqual(data, pos - 1, pos + MAX_MATCH - 1)
    ensures MatchAt(data, pos, 1, k)
  {
  }

  /** One byte back is as near as it gets. */
  lemma OneBackFound(b: Block, pos: nat, k: nat)
    requires InBlock(b, pos) && b.start < pos && pos + MAX_MATCH <= b.end && MIN_MATCH <= k <= MAX_MATCH
    requires AllEqual(b.data, pos - 1, pos + MAX_MATCH - 1)
    ensures k <= MatchLength(b, pos) && k < |MatchOf(b, pos).sub| && MatchOf(b, pos).sub[k] == 1
  {
    OneBackMatches(b.data, pos, k);
    hide MatchOf, MatchLength, AllEqual;
    NearestMatch(b, pos, 1, k);
    MatchesAreTrue(b, pos, k);
  }

  /** Recorded distances do not decrease with the length. */
  lemma DistancesGrow(b: Block, pos: nat, j: nat, k: nat)
    requires InBlock(b, pos) && 2 <= j <= k < |MatchOf(b, pos).sub|
    ensures 1 <= MatchOf(b, pos).sub[j] <= MatchOf(b, pos).sub[k]
  {
    if b.end - pos >= MIN_MATCH {
      FullQueryValid(b, pos, FullLimit(b, pos));
      hide ValidQuery, SearchAll, HashAt;
      var far := SearchAllSound(QueryAt(b, pos, FullLimit(b, pos)), WindowStart(b.start));
    }
  }

  lemma LengthOf(b: Block, pos: nat)
    requires InBlock(b, pos) && MatchLength(b, pos) > 0
    ensures |MatchOf(b, pos).sub| == MatchLength(b, pos) + 1
  {
    hide MatchOf;
  }

  /** The longest possible match, and distance 1 for every length. */
  lemma RunMatch(b: Block, pos: nat)
    requires InBlock(b, pos) && b.start < pos && pos + MAX_MATCH <= b.end
    requires AllEqual(b.data, pos - 1, pos + MAX_MATCH - 1)
    ensures MatchLength(b, pos) == MAX_MATCH
    ensures |MatchOf(b, pos).sub| == MAX_MATCH + 1 && forall k :: 2 <= k <= MAX_MATCH ==> MatchOf(b, pos).sub[k] == 1
  {
    hide MatchOf, MatchLength, AllEqual;
    OneBackFound(b, pos, MAX_MATCH);
    MatchesAreTrue(b, pos, MatchLength(b, pos));
    LengthOf(b, pos);
    forall k | 2 <= k <= MAX_MATCH ensures MatchOf(b, pos).sub[k] == 1 {
      DistancesGrow(b, pos, k, MAX_MATCH);
    }
  }
}
