/** `getCampaigns` on the listing page: every campaign with its code counts and the sum
    of its redeemed amounts (`LEFT JOIN unique_codes ... GROUP BY c.id`), newest first.
    The computed `current_amount` column shadows the stored one of the same name, so the
    page shows the sum recomputed from the codes. */
module Campaigns {
  import opened Store

  /** One result row of the query. */
  datatype CampaignSummary = CampaignSummary(
    campaign: Campaign,
    totalCodes: nat,
    usedCodes: nat,
    currentAmount: real)

  /** `COUNT(uc.id)`: rows of campaign `cid`. */
  function TotalCodes(codes: seq<CodeRow>, cid: nat): nat {
    if |codes| == 0 then 0
    else TotalCodes(codes[..|codes| - 1], cid) + (if codes[|codes| - 1].campaignId == cid then 1 else 0)
  }

  /** `COUNT(CASE WHEN uc.used = true THEN 1 END)`: used rows of campaign `cid`. */
  function UsedCodes(codes: seq<CodeRow>, cid: nat): nat {
    if |codes| == 0 then 0
    else
      var r := codes[|codes| - 1];
      UsedCodes(codes[..|codes| - 1], cid) + (if r.campaignId == cid && r.used then 1 else 0)
  }

  /** `COALESCE(SUM(CASE WHEN uc.used = true THEN uc.amount ELSE 0 END), 0)`. */
  function UsedAmount(codes: seq<CodeRow>, cid: nat): real {
    if |codes| == 0 then 0.0
    else
      var r := codes[|codes| - 1];
      UsedAmount(codes[..|codes| - 1], cid) + (if r.campaignId == cid && r.used then r.amount else 0.0)
  }

  /** The result row for one campaign. */
  function Summarize(c: Campaign, codes: seq<CodeRow>): CampaignSummary {
    CampaignSummary(c, TotalCodes(codes, c.id), UsedCodes(codes, c.id), UsedAmount(codes, c.id))
  }

  predicate SortedByCreatedDesc(cs: seq<Campaign>) {
    forall i, j :: 0 <= i < j < |cs| ==> cs[i].createdAt >= cs[j].createdAt
  }

  /** Insert `c` into a newest-first list, ahead of every campaign no newer than it. */
  function InsertByCreated(c: Campaign, sorted: seq<Campaign>): (r: seq<Campaign>)
    requires SortedByCreatedDesc(sorted)
    ensures SortedByCreatedDesc(r)
    ensures multiset(r) == multiset(sorted) + multiset{c}
    ensures |r| == |sorted| + 1
    ensures r[0] == c || (|sorted| > 0 && r[0] == sorted[0])
  {
    if |sorted| == 0 || sorted[0].createdAt <= c.createdAt then [c] + sorted
    else
      var rest := InsertByCreated(c, sorted[1..]);
      assert sorted == [sorted[0]] + sorted[1..];
      assert rest[0].createdAt <= sorted[0].createdAt;
      [sorted[0]] + rest
  }

  /** `ORDER BY c.created_at DESC`. Ties keep an order of this model's choosing; the
      query leaves their order to the database. */
  function SortByCreatedDesc(cs: seq<Campaign>): (r: seq<Campaign>)
    ensures SortedByCreatedDesc(r)
    ensures multiset(r) == multiset(cs)
    ensures |r| == |cs|
  {
    if |cs| == 0 then []
    else
      assert cs == [cs[0]] + cs[1..];
      InsertByCreated(cs[0], SortByCreatedDesc(cs[1..]))
  }

  /** The campaigns a result lists, in its order. */
  function CampaignsOf(rows: seq<CampaignSummary>): seq<Campaign> {
    seq(|rows|, i requires 0 <= i < |rows| => rows[i].campaign)
  }

  /** `getCampaigns`: one row per campaign, newest first, each with its own aggregates. */
  function GetCampaigns(s: Store): (r: seq<CampaignSummary>)
    ensures |r| == |s.campaigns|
    ensures multiset(CampaignsOf(r)) == multiset(s.campaigns)
    ensures forall i, j :: 0 <= i < j < |r| ==> r[i].campaign.createdAt >= r[j].campaign.createdAt
    ensures forall i :: 0 <= i < |r| ==>
      && r[i].totalCodes == TotalCodes(s.codes, r[i].campaign.id)
      && r[i].usedCodes == UsedCodes(s.codes, r[i].campaign.id)
      && r[i].currentAmount == UsedAmount(s.codes, r[i].campaign.id)
  {
    var sorted := SortByCreatedDesc(s.campaigns);
    var r := seq(|sorted|, i requires 0 <= i < |sorted| => Summarize(sorted[i], s.codes));
    assert CampaignsOf(r) == sorted;
    r
  }

  /** Indices of the rows of campaign `cid` among the first `n` rows. */
  function RowsOf(codes: seq<CodeRow>, cid: nat, n: nat): set<nat>
    requires n <= |codes|
  {
    set i: nat | i < n && codes[i].campaignId == cid
  }

  /** `total_codes` is the number of rows whose `campaign_id` is the campaign's id. */
  lemma {:induction false} TotalCodesIsRowCount(codes: seq<CodeRow>, cid: nat)
    ensures TotalCodes(codes, cid) == |RowsOf(codes, cid, |codes|)|
    decreases |codes|
  {
    if |codes| > 0 {
      var n := |codes| - 1;
      var init := codes[..n];
      TotalCodesIsRowCount(init, cid);
      assert RowsOf(init, cid, n) == RowsOf(codes, cid, n);
      if codes[n].campaignId == cid {
        assert RowsOf(codes, cid, n + 1) == RowsOf(codes, cid, n) + {n};
      } else {
        assert RowsOf(codes, cid, n + 1) == RowsOf(codes, cid, n);
      }
    }
  }

  /** A campaign never has more used codes than codes. */
  lemma {:induction false} UsedCodesBounded(codes: seq<CodeRow>, cid: nat)
    ensures UsedCodes(codes, cid) <= TotalCodes(codes, cid)
    decreases |codes|
  {
    if |codes| > 0 {
      UsedCodesBounded(codes[..|codes| - 1], cid);
    }
  }

  /** A campaign with no rows shows zero codes, zero used codes and a zero sum. */
  lemma {:induction false} NoRowsMeansZeros(codes: seq<CodeRow>, cid: nat)
    requires forall i :: 0 <= i < |codes| ==> codes[i].campaignId != cid
    ensures TotalCodes(codes, cid) == 0 && UsedCodes(codes, cid) == 0 && UsedAmount(codes, cid) == 0.0
    decreases |codes|
  {
    if |codes| > 0 {
      NoRowsMeansZeros(codes[..|codes| - 1], cid);
    }
  }

  /** The aggregates of a concatenation are the sums of the parts. */
  lemma {:induction false} AggregatesOfConcat(a: seq<CodeRow>, b: seq<CodeRow>, cid: nat)
    ensures TotalCodes(a + b, cid) == TotalCodes(a, cid) + TotalCodes(b, cid)
    ensures UsedCodes(a + b, cid) == UsedCodes(a, cid) + UsedCodes(b, cid)
    ensures UsedAmount(a + b, cid) == UsedAmount(a, cid) + UsedAmount(b, cid)
    decreases |b|
  {
    if |b| == 0 {
      assert a + b == a;
    } else {
      var b' := b[..|b| - 1];
      assert (a + b)[..|a + b| - 1] == a + b';
      AggregatesOfConcat(a, b', cid);
    }
  }

  /** Marking one unused row `k` as used adds one used code and its amount to its own
      campaign and changes no other aggregate. */
  lemma {:induction false} AggregatesAfterUse(codes: seq<CodeRow>, k: nat, row: CodeRow, cid: nat)
    requires k < |codes| && !codes[k].used
    requires row.used && row.campaignId == codes[k].campaignId && row.amount == codes[k].amount
    ensures TotalCodes(codes[k := row], cid) == TotalCodes(codes, cid)
    ensures UsedCodes(codes[k := row], cid)
         == UsedCodes(codes, cid) + (if codes[k].campaignId == cid then 1 else 0)
    ensures UsedAmount(codes[k := row], cid)
         == UsedAmount(codes, cid) + (if codes[k].campaignId == cid then codes[k].amount else 0.0)
    decreases |codes|
  {
    var n := |codes| - 1;
    var codes' := codes[k := row];
    if k < n {
      assert codes'[..n] == codes[..n][k := row];
      AggregatesAfterUse(codes[..n], k, row, cid);
    } else {
      assert codes'[..n] == codes[..n];
    }
  }

  /** A batch of unused rows of campaign `cid` counts fully towards `cid`'s total and
      adds nothing to any used count or sum. */
  lemma {:induction false} UnusedBatchAggregates(rows: seq<CodeRow>, cid: nat, other: nat)
    requires forall i :: 0 <= i < |rows| ==> rows[i].campaignId == cid && !rows[i].used
    ensures TotalCodes(rows, cid) == |rows|
    ensures UsedCodes(rows, other) == 0 && UsedAmount(rows, other) == 0.0
    ensures other != cid ==> TotalCodes(rows, other) == 0
    decreases |rows|
  {
    if |rows| > 0 {
      UnusedBatchAggregates(rows[..|rows| - 1], cid, other);
    }
  }
}
