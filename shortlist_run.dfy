/**
 * The shortlist step (project/src/shortlist_run.py): the clusters of a
 * clustered result are split into three tiers by confidence (likely at
 * 0.80 and above, maybe from 0.50 up to 0.80, low below 0.50) and
 * counted. Confidences are in hundredths, as in the Cluster module.
 */
module ShortlistRun {
  import opened Wrappers
  import Normalize
  import Cluster

  const LIKELY_AT: int := 80
  const MAYBE_AT: int := 50

  /** A cluster record as read back from JSON: its `confidence` may be
      missing; everything else is carried through untouched. */
  datatype Listed<T> = Listed(confidence: Option<int>, fields: T)

  /** `c.get("confidence", 0)`. */
  function Confidence<T>(c: Listed<T>): int
  {
    c.confidence.GetOr(0)
  }

  datatype Tier = Likely | Maybe | Low

  /** The condition of each tier's list comprehension. */
  predicate InTier(conf: int, tier: Tier)
  {
    match tier
    case Likely => conf >= LIKELY_AT
    case Maybe => MAYBE_AT <= conf < LIKELY_AT
    case Low => conf < MAYBE_AT
  }

  /** The one tier a confidence falls in. */
  function TierOf(conf: int): Tier
  {
    if conf >= LIKELY_AT then Likely else if conf >= MAYBE_AT then Maybe else Low
  }

  /** The three conditions partition the confidences: each one meets
      exactly the condition of its own tier. */
  lemma TiersPartition(conf: int, tier: Tier)
    ensures InTier(conf, tier) <==> tier == TierOf(conf)
  {
  }

  /** A record without a confidence is low. */
  lemma MissingConfidenceIsLow<T>(c: Listed<T>)
    requires c.confidence.None?
    ensures InTier(Confidence(c), Low) && TierOf(Confidence(c)) == Low
  {
  }

  /** `[c for c in clusters if <condition of tier>]`. */
  function Select<T>(cs: seq<Listed<T>>, tier: Tier): (r: seq<Listed<T>>)
    ensures |r| <= |cs|
  {
    if cs == [] then []
    else (if InTier(Confidence(cs[0]), tier) then [cs[0]] else []) + Select(cs[1..], tier)
  }

  /** A tier holds exactly the records that meet its condition. */
  lemma {:induction false} SelectSpec<T>(cs: seq<Listed<T>>, tier: Tier, c: Listed<T>)
    ensures c in Select(cs, tier) <==> c in cs && InTier(Confidence(c), tier)
    decreases |cs|
  {
    if cs != [] {
      SelectSpec(cs[1..], tier, c);
      assert cs == [cs[0]] + cs[1..];
    }
  }

  /** `Select` keeps the input order: what it drops is removable, not reordered. */
  predicate Subsequence<T(==)>(sub: seq<T>, s: seq<T>)
    decreases |s|
  {
    sub == [] || (s != [] && (if sub[0] == s[0] then Subsequence(sub[1..], s[1..]) else Subsequence(sub, s[1..])))
  }

  lemma {:induction false} SelectKeepsOrder<T>(cs: seq<Listed<T>>, tier: Tier)
    ensures Subsequence(Select(cs, tier), cs)
    decreases |cs|
  {
    if cs != [] {
      SelectKeepsOrder(cs[1..], tier);
      var rest := Select(cs[1..], tier);
      if InTier(Confidence(cs[0]), tier) {
        assert Select(cs, tier) == [cs[0]] + rest;
        assert ([cs[0]] + rest)[1..] == rest;
      } else {
        assert Select(cs, tier) == rest;
        SubsequenceSkip(rest, cs);
      }
    }
  }

  lemma SubsequenceSkip<T>(sub: seq<T>, s: seq<T>)
    requires s != [] && Subsequence(sub, s[1..])
    ensures Subsequence(sub, s)
    decreases |s|, 0
  {
    if sub != [] && sub[0] == s[0] {
      SubsequenceTail(sub, s[1..]);
    }
  }

  lemma {:induction false} SubsequenceTail<T>(sub: seq<T>, s: seq<T>)
    requires sub != [] && Subsequence(sub, s)
    ensures Subsequence(sub[1..], s)
    decreases |s|, 1
  {
    if sub[0] == s[0] {
      if sub[1..] != [] {
        SubsequenceSkip(sub[1..], s);
      }
    } else {
      SubsequenceTail(sub, s[1..]);
      SubsequenceSkip(sub[1..], s);
    }
  }

  /** The three tiers together hold every record exactly once. */
  lemma {:induction false} TiersCoverAll<T>(cs: seq<Listed<T>>)
    ensures multiset(Select(cs, Likely)) + multiset(Select(cs, Maybe)) + multiset(Select(cs, Low)) == multiset(cs)
    ensures |Select(cs, Likely)| + |Select(cs, Maybe)| + |Select(cs, Low)| == |cs|
    decreases |cs|
  {
    if cs != [] {
      TiersCoverAll(cs[1..]);
      assert cs == [cs[0]] + cs[1..];
    }
  }

  predicate Descending<T>(cs: seq<Listed<T>>)
  {
    forall i, j :: 0 <= i < j < |cs| ==> Confidence(cs[i]) >= Confidence(cs[j])
  }

  /** On a list sorted by descending confidence the tiers are consecutive
      slices: likely, then maybe, then low. */
  lemma {:induction false} SortedTiers<T>(cs: seq<Listed<T>>)
    requires Descending(cs)
    ensures cs == Select(cs, Likely) + Select(cs, Maybe) + Select(cs, Low)
    decreases |cs|
  {
    if cs != [] {
      var rest := cs[1..];
      DescendingTail(cs);
      SortedTiers(rest);
      assert cs == [cs[0]] + rest;
      var c, l, m, w := cs[0], Select(rest, Likely), Select(rest, Maybe), Select(rest, Low);
      var t := TierOf(Confidence(c));
      if t == Likely {
        assert Select(cs, Likely) == [c] + l;
        assert Select(cs, Maybe) == m && Select(cs, Low) == w;
        ConsFirst(c, l, m, w);
      } else if t == Maybe {
        NoneInTier(rest, Likely);
        assert Select(cs, Likely) == [];
        assert Select(cs, Maybe) == [c] + m && Select(cs, Low) == w;
        ConsSecond(c, m, w);
      } else {
        NoneInTier(rest, Likely);
        NoneInTier(rest, Maybe);
        assert Select(cs, Likely) == [] && Select(cs, Maybe) == [];
        assert Select(cs, Low) == [c] + w;
        ConsThird(c, w);
      }
    }
  }

  // Steps of SortedTiers: putting one record in front of the tiers of
  // the rest, for each of the three tiers it can belong to. They are
  // kept apart from SortedTiers so that its proof stays small.

  lemma ConsFirst<T>(c: T, l: seq<T>, m: seq<T>, w: seq<T>)
    ensures [c] + (l + m + w) == ([c] + l) + m + w
  {
  }

  lemma ConsSecond<T>(c: T, m: seq<T>, w: seq<T>)
    ensures [c] + ([] + m + w) == [] + ([c] + m) + w
  {
  }

  lemma ConsThird<T>(c: T, w: seq<T>)
    ensures [c] + ([] + [] + w) == [] + [] + ([c] + w)
  {
  }

  /** The tail of a descending list is descending and bounded by its head. */
  lemma DescendingTail<T>(cs: seq<Listed<T>>)
    requires cs != [] && Descending(cs)
    ensures Descending(cs[1..])
    ensures forall i :: 0 <= i < |cs[1..]| ==> Confidence(cs[1..][i]) <= Confidence(cs[0])
  {
    forall i | 0 <= i < |cs[1..]| ensures Confidence(cs[1..][i]) <= Confidence(cs[0]) {
      assert cs[1..][i] == cs[i + 1];
    }
  }

  lemma {:induction false} NoneInTier<T>(cs: seq<Listed<T>>, tier: Tier)
    requires forall i :: 0 <= i < |cs| ==> !InTier(Confidence(cs[i]), tier)
    ensures Select(cs, tier) == []
    decreases |cs|
  {
    if cs != [] {
      assert forall i :: 0 <= i < |cs| - 1 ==> cs[1..][i] == cs[i + 1];
      NoneInTier(cs[1..], tier);
    }
  }

  datatype TierCounts = TierCounts(clusters: nat, likely: nat, maybe: nat, low: nat)

  /** The shortlist written out: the target, the input file's name, the
      counts and the three tiers. */
  datatype Shortlist<T> = Shortlist(
    target: Option<string>,
    inputFile: string,
    counts: TierCounts,
    likely: seq<Listed<T>>,
    maybe: seq<Listed<T>>,
    low: seq<Listed<T>>)

  /** The body of the script once the file is read: `target` and
      `clusters` are `None` when their keys are missing; missing clusters
      read as an empty list. */
  function MakeShortlist<T>(target: Option<string>, inputFile: string, clusters: Option<seq<Listed<T>>>): (s: Shortlist<T>)
    ensures s.target == target && s.inputFile == inputFile
    ensures s.counts.clusters == s.counts.likely + s.counts.maybe + s.counts.low
    ensures s.counts.likely == |s.likely| && s.counts.maybe == |s.maybe| && s.counts.low == |s.low|
    ensures clusters.Some? ==> s.counts.clusters == |clusters.value|
    ensures clusters.None? ==> s.likely == [] && s.maybe == [] && s.low == [] && s.counts == TierCounts(0, 0, 0, 0)
  {
    var cs := clusters.GetOr([]);
    var likely := Select(cs, Likely);
    var maybe := Select(cs, Maybe);
    var low := Select(cs, Low);
    TiersCoverAll(cs);
    Shortlist(target, inputFile, TierCounts(|cs|, |likely|, |maybe|, |low|), likely, maybe, low)
  }

  /** Every record of the input is in exactly one tier of the shortlist. */
  lemma ShortlistPlaces<T>(target: Option<string>, inputFile: string, cs: seq<Listed<T>>, c: Listed<T>)
    requires c in cs
    ensures var s := MakeShortlist(target, inputFile, Some(cs));
      && (c in s.likely <==> TierOf(Confidence(c)) == Likely)
      && (c in s.maybe <==> TierOf(Confidence(c)) == Maybe)
      && (c in s.low <==> TierOf(Confidence(c)) == Low)
  {
    SelectSpec(cs, Likely, c);
    SelectSpec(cs, Maybe, c);
    SelectSpec(cs, Low, c);
  }

  // =====================================================================
  // The clusters cluster_accounts writes

  /** The clustered output as the shortlist reads it: every record has a confidence. */
  function FromClusters(cs: seq<Cluster.Cluster>): (r: seq<Listed<Cluster.Cluster>>)
    ensures |r| == |cs|
  {
    if cs == [] then [] else [Listed(Some(cs[0].confidence), cs[0])] + FromClusters(cs[1..])
  }

  lemma {:induction false} FromClustersAt(cs: seq<Cluster.Cluster>, i: nat)
    requires i < |cs|
    ensures FromClusters(cs)[i] == Listed(Some(cs[i].confidence), cs[i])
    decreases |cs|
  {
    if i > 0 {
      FromClustersAt(cs[1..], i - 1);
    }
  }

  /** Reading back clusters sorted by confidence gives a list sorted by confidence. */
  lemma DescendingFromClusters(cs: seq<Cluster.Cluster>)
    requires Cluster.Descending(cs)
    ensures Descending(FromClusters(cs))
  {
    var r := FromClusters(cs);
    forall i, j | 0 <= i < j < |r|
      ensures Confidence(r[i]) >= Confidence(r[j])
    {
      FromClustersAt(cs, i);
      FromClustersAt(cs, j);
    }
  }

  /** Clusters in the order `cluster_accounts` returns them split into
      consecutive tiers. */
  lemma ClusteredTiers(target: string, accounts: seq<Normalize.Account>)
    ensures var cs := FromClusters(Cluster.SortByConfidence(Cluster.Built(target, accounts)));
      cs == Select(cs, Likely) + Select(cs, Maybe) + Select(cs, Low)
  {
    var sorted := Cluster.SortByConfidence(Cluster.Built(target, accounts));
    DescendingFromClusters(sorted);
    var cs := FromClusters(sorted);
    SortedTiers(cs);
  }
}
