/** How differently files fill the same column. */
module Disagreement {
  import opened TextOrder
  import opened Wrappers

  // Each file's commonest values become a distribution, and the disagreement is the mean distance between
  // the files' distributions. Shares are exact numbers.

  datatype ValueCount = ValueCount(value: string, count: nat)

  // ---------------------------------------------------------------- the commonest values

  // Commoner first; of two as common, the value that comes first.
  predicate RanksBefore(a: ValueCount, b: ValueCount) {
    a.count > b.count || (a.count == b.count && Less(a.value, b.value))
  }

  ghost predicate IsRanked(top: seq<ValueCount>) {
    forall i, j :: 0 <= i < j < |top| ==> RanksBefore(top[i], top[j])
  }

  // Of the non-blank cells of a column, counted: the first `kept` values of the ranking.
  ghost predicate IsTopOf(filled: multiset<string>, kept: nat, top: seq<ValueCount>) {
    && IsRanked(top)
    && (forall i :: 0 <= i < |top| ==> IsCounted(filled, top[i]))
    && |top| <= kept
    && (forall value :: value in filled && value !in Values(top) ==> |top| == kept && RanksAfter(filled, value, top))
  }

  ghost predicate IsCounted(filled: multiset<string>, one: ValueCount) {
    one.value in filled && one.count == filled[one.value]
  }

  ghost predicate RanksAfter(filled: multiset<string>, value: string, top: seq<ValueCount>) {
    forall i :: 0 <= i < |top| ==> RanksBefore(top[i], ValueCount(value, filled[value]))
  }

  function Values(top: seq<ValueCount>): set<string> {
    if top == [] then {} else Values(top[..|top| - 1]) + {top[|top| - 1].value}
  }

  lemma {:induction false} ValueIsThere(top: seq<ValueCount>, i: nat)
    requires i < |top|
    ensures top[i].value in Values(top)
  {
    if i < |top| - 1 { ValueIsThere(top[..|top| - 1], i); }
  }

  method RankValues(filled: multiset<string>, kept: nat) returns (top: seq<ValueCount>)
    ensures IsTopOf(filled, kept, top)
  {
    top := [];
    var rest := set value | value in filled;
    while |top| < kept && rest != {}
      invariant |top| <= kept && IsRanked(top)
      invariant forall i :: 0 <= i < |top| ==> IsCounted(filled, top[i])
      invariant forall value :: value in filled <==> value in rest || value in Values(top)
      invariant forall value :: value in rest ==> RanksAfter(filled, value, top)
      decreases kept - |top|
    {
      var best := Commonest(filled, rest);
      ghost var so := top;
      assert RanksAfter(filled, best, so);
      top := top + [ValueCount(best, filled[best])];
      rest := rest - {best};
      assert top[..|top| - 1] == so;
      forall value | value in rest
        ensures RanksAfter(filled, value, top)
      {
        assert RanksAfter(filled, value, so);
      }
    }
  }

  method Commonest(filled: multiset<string>, values: set<string>) returns (best: string)
    requires values != {}
    ensures best in values
    ensures forall value :: value in values && value != best ==>
      RanksBefore(ValueCount(best, filled[best]), ValueCount(value, filled[value]))
  {
    best :| best in values;
    var rest := values - {best};
    while rest != {}
      invariant best in values && rest <= values
      invariant best !in rest
      invariant forall value :: value in values && value !in rest && value != best ==>
        RanksBefore(ValueCount(best, filled[best]), ValueCount(value, filled[value]))
      decreases rest
    {
      var value :| value in rest;
      rest := rest - {value};
      if RanksBefore(ValueCount(value, filled[value]), ValueCount(best, filled[best])) {
        forall other | other in values && other !in rest && other != value
          ensures RanksBefore(ValueCount(value, filled[value]), ValueCount(other, filled[other]))
        {
          if other != best && filled[other] == filled[best] == filled[value] { Transitive(value, best, other); }
        }
        best := value;
      } else {
        OneOrTheOther(best, value);
      }
    }
  }

  function TotalOf(top: seq<ValueCount>): nat {
    if top == [] then 0 else top[0].count + TotalOf(top[1..])
  }

  ghost predicate ValuesDiffer(top: seq<ValueCount>) {
    forall i, j :: 0 <= i < j < |top| ==> top[i].value != top[j].value
  }

  // The kept values never count for more than there is.
  lemma {:induction false} TopFitsInFilled(filled: multiset<string>, top: seq<ValueCount>)
    requires ValuesDiffer(top) && forall i :: 0 <= i < |top| ==> top[i].count == filled[top[i].value]
    ensures TotalOf(top) <= |filled|
  {
    if top != [] {
      var rest := filled[top[0].value := 0];
      forall i | 0 <= i < |top[1..]|
        ensures top[1..][i].count == rest[top[1..][i].value]
      {
        assert top[1..][i] == top[i + 1];
      }
      TopFitsInFilled(rest, top[1..]);
    }
  }

  lemma {:induction false} RankedDiffer(filled: multiset<string>, top: seq<ValueCount>)
    requires IsRanked(top) && forall i :: 0 <= i < |top| ==> IsCounted(filled, top[i])
    ensures ValuesDiffer(top)
  {
    forall i, j | 0 <= i < j < |top|
      ensures top[i].value != top[j].value
    {
      assert RanksBefore(top[i], top[j]) && IsCounted(filled, top[i]) && IsCounted(filled, top[j]);
      NotBelowItself(top[i].value);
    }
  }

  // ---------------------------------------------------------------- a column as a distribution

  type Shares = map<string, real>

  const REST := "\0the rest"

  const COVERAGE_FLOOR: real := 0.5

  function Share(shares: Shares, value: string): real {
    if value in shares then shares[value] else 0.0
  }

  function SharesOf(top: seq<ValueCount>, filledCount: nat): Shares
    requires filledCount > 0
  {
    if top == [] then map[]
    else
      var n := |top| - 1;
      SharesOf(top[..n], filledCount)[top[n].value := top[n].count as real / filledCount as real]
  }

  function Covered(top: seq<ValueCount>, filledCount: nat): real
    requires filledCount > 0
  {
    TotalOf(top) as real / filledCount as real
  }

  // What the kept values leave out is one more share.
  function Distribution(top: seq<ValueCount>, filledCount: nat): Shares
    requires filledCount > 0
  {
    SharesOf(top, filledCount)[REST := 1.0 - Covered(top, filledCount)]
  }

  // None where the column is empty, or its kept values are less than half of it.
  method ReadDistribution(top: seq<ValueCount>, filledCount: nat) returns (shares: Option<Shares>)
    requires ValuesDiffer(top) && TotalOf(top) <= filledCount
    ensures shares.None? <==> filledCount == 0 || Covered(top, filledCount) < COVERAGE_FLOOR
    ensures shares.Some? ==> shares.value == Distribution(top, filledCount)
  {
    if filledCount == 0 {
      return None;
    }
    var out: Shares := map[];
    var covered: real := 0.0;
    for i := 0 to |top|
      invariant out == SharesOf(top[..i], filledCount)
      invariant covered == Covered(top[..i], filledCount)
    {
      assert top[..i + 1][..i] == top[..i];
      TotalOfOneMore(top, i);
      var share := top[i].count as real / filledCount as real;
      AddedShares(TotalOf(top[..i]), top[i].count, filledCount);
      out := out[top[i].value := share];
      covered := covered + share;
    }
    assert top[..|top|] == top;
    if covered < COVERAGE_FLOOR {
      return None;
    }
    AtMostOne(TotalOf(top), filledCount);
    out := out[REST := if 1.0 - covered > 0.0 then 1.0 - covered else 0.0];
    return Some(out);
  }

  lemma {:induction false} TotalOfOneMore(top: seq<ValueCount>, i: nat)
    requires i < |top|
    ensures TotalOf(top[..i + 1]) == TotalOf(top[..i]) + top[i].count
  {
    if i > 0 {
      TotalOfOneMore(top[1..], i - 1);
      assert top[..i + 1][1..] == top[1..][..i] && top[..i][1..] == top[1..][..i - 1];
    }
  }

  lemma AddedShares(a: nat, b: nat, n: nat)
    requires n > 0
    ensures (a + b) as real / n as real == a as real / n as real + b as real / n as real
  {
  }

  lemma AtMostOne(a: nat, n: nat)
    requires n > 0 && a <= n
    ensures 0.0 <= a as real / n as real <= 1.0
  {
  }

  // ---------------------------------------------------------------- sums over values

  ghost function Sum(shares: Shares, values: set<string>): real {
    if values == {} then 0.0
    else
      var value :| value in values;
      Share(shares, value) + Sum(shares, values - {value})
  }

  lemma {:induction false} SumTakes(shares: Shares, values: set<string>, value: string)
    requires value in values
    ensures Sum(shares, values) == Share(shares, value) + Sum(shares, values - {value})
  {
    var first :| first in values && Sum(shares, values) == Share(shares, first) + Sum(shares, values - {first});
    if first != value {
      SumTakes(shares, values - {first}, value);
      SumTakes(shares, values - {value}, first);
      assert values - {first} - {value} == values - {value} - {first};
    }
  }

  // Values without a share add nothing.
  lemma {:induction false} SumOfMore(shares: Shares, values: set<string>, more: set<string>)
    requires values <= more && forall value :: value in more && value !in values ==> Share(shares, value) == 0.0
    ensures Sum(shares, more) == Sum(shares, values)
    decreases |more - values|
  {
    if more != values {
      var value :| value in more && value !in values;
      SumTakes(shares, more, value);
      assert more - {value} - values == (more - values) - {value};
      SumOfMore(shares, values, more - {value});
    }
  }

  lemma {:induction false} SumAgrees(a: Shares, b: Shares, values: set<string>)
    requires forall value :: value in values ==> Share(a, value) == Share(b, value)
    ensures Sum(a, values) == Sum(b, values)
  {
    if values != {} {
      var value :| value in values;
      SumTakes(a, values, value);
      SumTakes(b, values, value);
      SumAgrees(a, b, values - {value});
    }
  }

  lemma {:induction false} SumOfShares(top: seq<ValueCount>, filledCount: nat)
    requires filledCount > 0 && ValuesDiffer(top)
    ensures SharesOf(top, filledCount).Keys == Values(top)
    ensures Sum(SharesOf(top, filledCount), Values(top)) == Covered(top, filledCount)
  {
    if top != [] {
      var n: nat := |top| - 1;
      var value, front, shares := top[n].value, SharesOf(top[..n], filledCount), SharesOf(top, filledCount);
      SumOfShares(top[..n], filledCount);
      NewValue(top, n);
      assert Values(top) - {value} == Values(top[..n]);
      SumTakes(shares, Values(top), value);
      SumAgrees(shares, front, Values(top[..n]));
      assert top[..n + 1] == top;
      TotalOfOneMore(top, n);
      AddedShares(TotalOf(top[..n]), top[n].count, filledCount);
    }
  }

  lemma {:induction false} NewValue(top: seq<ValueCount>, n: nat)
    requires ValuesDiffer(top) && n < |top|
    ensures top[n].value !in Values(top[..n])
  {
    AllButOne(top[..n], top[n].value);
  }

  lemma {:induction false} AllButOne(top: seq<ValueCount>, value: string)
    requires forall i :: 0 <= i < |top| ==> top[i].value != value
    ensures value !in Values(top)
  {
    if top != [] { AllButOne(top[..|top| - 1], value); }
  }

  ghost predicate IsNonNegative(shares: Shares) {
    forall value :: Share(shares, value) >= 0.0
  }

  lemma {:induction false} SharesAreNonNegative(top: seq<ValueCount>, filledCount: nat)
    requires filledCount > 0
    ensures IsNonNegative(SharesOf(top, filledCount))
  {
    if top != [] {
      SharesAreNonNegative(top[..|top| - 1], filledCount);
      var n := |top| - 1;
      QuotientIsNonNegative(top[n].count, filledCount);
      forall value
        ensures Share(SharesOf(top, filledCount), value) >= 0.0
      {
        assert Share(SharesOf(top[..n], filledCount), value) >= 0.0;
      }
    }
  }

  lemma QuotientIsNonNegative(a: nat, n: nat)
    requires n > 0
    ensures a as real / n as real >= 0.0
    ensures a > 0 ==> a as real / n as real > 0.0
  {
  }

  // A distribution adds up to no more than one, and to one exactly where no kept value is spelled like
  // the bucket for the rest, which would take its place.
  lemma {:induction false} DistributionsAddUp(top: seq<ValueCount>, filledCount: nat)
    requires filledCount > 0 && ValuesDiffer(top) && TotalOf(top) <= filledCount
    requires forall i :: 0 <= i < |top| ==> top[i].count > 0
    ensures var d := Distribution(top, filledCount);
      && IsNonNegative(d) && 0.0 <= Sum(d, d.Keys) <= 1.0
      && (Sum(d, d.Keys) == 1.0 <==> REST !in Values(top))
  {
    var d, shares := Distribution(top, filledCount), SharesOf(top, filledCount);
    SumOfShares(top, filledCount);
    SharesAreNonNegative(top, filledCount);
    AtMostOne(TotalOf(top), filledCount);
    forall value
      ensures Share(d, value) >= 0.0
    {
      assert Share(shares, value) >= 0.0;
    }
    assert d.Keys == Values(top) + {REST};
    SumTakes(d, d.Keys, REST);
    assert d.Keys - {REST} == Values(top) - {REST};
    SumAgrees(d, shares, Values(top) - {REST});
    if REST in Values(top) {
      SumTakes(shares, Values(top), REST);
      ShareIsPositive(top, filledCount, REST);
    } else {
      assert Values(top) - {REST} == Values(top);
    }
    SumIsNonNegative(d, d.Keys);
  }

  lemma {:induction false} ShareIsPositive(top: seq<ValueCount>, filledCount: nat, value: string)
    requires filledCount > 0 && value in Values(top) && forall i :: 0 <= i < |top| ==> top[i].count > 0
    ensures Share(SharesOf(top, filledCount), value) > 0.0
  {
    var n: nat := |top| - 1;
    QuotientIsNonNegative(top[n].count, filledCount);
    if top[n].value != value { ShareIsPositive(top[..n], filledCount, value); }
  }

  lemma {:induction false} SumIsNonNegative(shares: Shares, values: set<string>)
    requires IsNonNegative(shares)
    ensures Sum(shares, values) >= 0.0
  {
    if values != {} {
      var value :| value in values;
      SumTakes(shares, values, value);
      SumIsNonNegative(shares, values - {value});
      assert Share(shares, value) >= 0.0;
    }
  }

  // ---------------------------------------------------------------- distance

  function Abs(x: real): real { if x < 0.0 then -x else x }

  ghost function Gaps(a: Shares, b: Shares, values: set<string>): real {
    if values == {} then 0.0
    else
      var value :| value in values;
      Abs(Share(a, value) - Share(b, value)) + Gaps(a, b, values - {value})
  }

  // Half of all the gaps between two distributions.
  ghost function Distance(a: Shares, b: Shares): real {
    Gaps(a, b, a.Keys + b.Keys) / 2.0
  }

  lemma {:induction false} GapsTake(a: Shares, b: Shares, values: set<string>, value: string)
    requires value in values
    ensures Gaps(a, b, values) == Abs(Share(a, value) - Share(b, value)) + Gaps(a, b, values - {value})
  {
    var first :| first in values
        && Gaps(a, b, values) == Abs(Share(a, first) - Share(b, first)) + Gaps(a, b, values - {first});
    if first != value {
      GapsTake(a, b, values - {first}, value);
      GapsTake(a, b, values - {value}, first);
      assert values - {first} - {value} == values - {value} - {first};
    }
  }

  lemma {:induction false} OneFewer(more: set<string>, values: set<string>, value: string)
    requires value in more && value !in values
    ensures |(more - {value}) - values| < |more - values|
  {
    assert more - {value} - values == (more - values) - {value};
  }

  lemma {:induction false} GapsOfMore(a: Shares, b: Shares, more: set<string>)
    requires a.Keys + b.Keys <= more
    ensures Gaps(a, b, more) == Gaps(a, b, a.Keys + b.Keys)
    decreases |more - (a.Keys + b.Keys)|
  {
    var values := a.Keys + b.Keys;
    if more != values {
      var value :| value in more && value !in values;
      GapsTake(a, b, more, value);
      OneFewer(more, values, value);
      GapsOfMore(a, b, more - {value});
    }
  }

  lemma {:induction false} GapsCompare(a: Shares, b: Shares, c: Shares, values: set<string>)
    ensures Gaps(a, b, values) == Gaps(b, a, values)
    ensures Gaps(a, c, values) <= Gaps(a, b, values) + Gaps(b, c, values)
    ensures Gaps(a, b, values) >= 0.0
    ensures Gaps(a, b, values) == 0.0 <==> forall value :: value in values ==> Share(a, value) == Share(b, value)
    ensures IsNonNegative(a) && IsNonNegative(b) ==> Gaps(a, b, values) <= Sum(a, values) + Sum(b, values)
  {
    if values != {} {
      var value :| value in values;
      GapsTake(a, b, values, value);
      GapsTake(b, a, values, value);
      GapsTake(b, c, values, value);
      GapsTake(a, c, values, value);
      SumTakes(a, values, value);
      SumTakes(b, values, value);
      GapsCompare(a, b, c, values - {value});
      forall other | other in values
        ensures other == value || other in values - {value}
      {
      }
    }
  }

  // Equal wherever a value is asked for: a value with no share and one with a share of zero are alike.
  ghost predicate SameShares(a: Shares, b: Shares) {
    forall value :: Share(a, value) == Share(b, value)
  }

  ghost predicate IsSubDistribution(shares: Shares) {
    IsNonNegative(shares) && Sum(shares, shares.Keys) <= 1.0
  }

  // A distance: symmetric, with the triangle inequality, from 0 to 1, and 0 only between equals.
  lemma {:induction false} DistanceIsAMetric(a: Shares, b: Shares, c: Shares)
    ensures Distance(a, b) == Distance(b, a) >= 0.0
    ensures Distance(a, c) <= Distance(a, b) + Distance(b, c)
    ensures Distance(a, b) == 0.0 <==> SameShares(a, b)
    ensures IsSubDistribution(a) && IsSubDistribution(b) ==> Distance(a, b) <= 1.0
  {
    var all := a.Keys + b.Keys + c.Keys;
    GapsOfMore(a, b, all);
    GapsOfMore(b, c, all);
    GapsOfMore(a, c, all);
    GapsCompare(a, b, c, all);
    assert a.Keys + b.Keys == b.Keys + a.Keys;
    GapsCompare(a, b, c, a.Keys + b.Keys);
    assert forall value :: value !in all ==> Share(a, value) == Share(b, value);
    SumOfMore(a, a.Keys, a.Keys + b.Keys);
    SumOfMore(b, b.Keys, a.Keys + b.Keys);
  }

  // ---------------------------------------------------------------- all pairs

  ghost function FromOne(one: Shares, others: seq<Shares>): real {
    if others == [] then 0.0 else Distance(one, others[0]) + FromOne(one, others[1..])
  }

  // Over every pair once.
  ghost function OverPairs(spreads: seq<Shares>): real {
    if spreads == [] then 0.0 else FromOne(spreads[0], spreads[1..]) + OverPairs(spreads[1..])
  }

  function PairCount(n: nat): nat {
    if n == 0 then 0 else (n - 1) + PairCount(n - 1)
  }

  // No pairs, no disagreement.
  ghost function MeasureDisagreement(spreads: seq<Shares>): real {
    if PairCount(|spreads|) == 0 then 0.0 else OverPairs(spreads) / PairCount(|spreads|) as real
  }

  ghost predicate AllAlike(spreads: seq<Shares>) {
    forall i, j :: 0 <= i < j < |spreads| ==> SameShares(spreads[i], spreads[j])
  }

  lemma {:induction false} FromOneIsBounded(one: Shares, others: seq<Shares>)
    requires IsSubDistribution(one) && forall other :: other in others ==> IsSubDistribution(other)
    ensures 0.0 <= FromOne(one, others) <= |others| as real
    ensures FromOne(one, others) == 0.0 <==> forall i :: 0 <= i < |others| ==> SameShares(one, others[i])
  {
    if others != [] {
      assert others[0] in others;
      DistanceIsAMetric(one, others[0], one);
      FromOneIsBounded(one, others[1..]);
      if FromOne(one, others) == 0.0 {
        forall i | 0 <= i < |others|
          ensures SameShares(one, others[i])
        {
          if i > 0 { assert others[1..][i - 1] == others[i]; }
        }
      }
      if forall i :: 0 <= i < |others| ==> SameShares(one, others[i]) {
        assert forall i :: 0 <= i < |others[1..]| ==> others[1..][i] == others[i + 1];
      }
    }
  }

  lemma {:induction false} OverPairsIsBounded(spreads: seq<Shares>)
    requires forall one :: one in spreads ==> IsSubDistribution(one)
    ensures 0.0 <= OverPairs(spreads) <= PairCount(|spreads|) as real
    ensures OverPairs(spreads) == 0.0 <==> AllAlike(spreads)
  {
    if spreads != [] {
      assert spreads[0] in spreads;
      var rest := spreads[1..];
      FromOneIsBounded(spreads[0], rest);
      OverPairsIsBounded(rest);
      assert forall i :: 0 <= i < |rest| ==> rest[i] == spreads[i + 1];
      if OverPairs(spreads) == 0.0 {
        assert AllAlike(rest);
        forall i, j | 0 <= i < j < |spreads|
          ensures SameShares(spreads[i], spreads[j])
        {
          assert spreads[j] == rest[j - 1];
          if i > 0 { assert SameShares(rest[i - 1], rest[j - 1]); }
        }
      }
      if AllAlike(spreads) {
        forall i | 0 <= i < |rest|
          ensures SameShares(spreads[0], rest[i])
        {
          assert SameShares(spreads[0], spreads[i + 1]);
        }
        forall i, j | 0 <= i < j < |rest|
          ensures SameShares(rest[i], rest[j])
        {
          assert SameShares(spreads[i + 1], spreads[j + 1]);
        }
      }
    }
  }

  // The disagreement of any number of files is from 0 to 1, and 0 exactly where all fill the column alike.
  lemma {:induction false} DisagreementIsAMean(spreads: seq<Shares>)
    requires forall one :: one in spreads ==> IsSubDistribution(one)
    ensures 0.0 <= MeasureDisagreement(spreads) <= 1.0
    ensures MeasureDisagreement(spreads) == 0.0 <==> AllAlike(spreads)
  {
    OverPairsIsBounded(spreads);
    if PairCount(|spreads|) > 0 {
      QuotientBounds(OverPairs(spreads), PairCount(|spreads|) as real);
    } else {
      FewHaveNoPairs(|spreads|);
    }
  }

  lemma QuotientBounds(x: real, n: real)
    requires 0.0 <= x <= n && n > 0.0
    ensures 0.0 <= x / n <= 1.0
    ensures x / n == 0.0 <==> x == 0.0
  {
  }

  lemma {:induction false} FewHaveNoPairs(n: nat)
    ensures PairCount(n) == 0 <==> n <= 1
  {
    if n > 1 { FewHaveNoPairs(n - 1); }
  }

  // From the cells themselves: however many values of a column are kept, what is read of it is a
  // distribution the measure above is good for.
  method DistributionOfColumn(filled: multiset<string>, kept: nat) returns (shares: Option<Shares>)
    ensures shares.Some? ==> IsSubDistribution(shares.value)
    ensures |filled| == 0 ==> shares == None
  {
    var top := RankValues(filled, kept);
    RankedDiffer(filled, top);
    assert forall i :: 0 <= i < |top| ==> IsCounted(filled, top[i]);
    TopFitsInFilled(filled, top);
    shares := ReadDistribution(top, |filled|);
    if |filled| > 0 { DistributionsAddUp(top, |filled|); }
  }
}
