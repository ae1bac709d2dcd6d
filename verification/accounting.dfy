/** How the two handlers move the listing page's aggregates: creating a campaign adds a
    row of zeros-but-total and leaves the others alone; redeeming a code held by one row
    raises its campaign's used count by one and its sum by the code's amount. */
module Accounting {
  import opened Wrappers
  import opened Store
  import Generate
  import Validate
  import opened Campaigns

  /** When only row `k` carries `token`, a successful redemption rewrites exactly that row. */
  lemma RedeemRewritesOneRow(s: Store, token: string, k: nat, now: Timestamp, clock: Timestamp)
    requires token != "" && Validate.CanRedeem(s, token)
    requires k < |s.codes| && s.codes[k].uniqueCode == token
    requires forall j :: 0 <= j < |s.codes| && j != k ==> s.codes[j].uniqueCode != token
    ensures var res := Validate.Redeem(Validate.RedeemRequest(Some(token)), s, now, clock, None);
      && res.0 == Validate.Redeemed(s.codes[k].amount, Validate.MatchedName(s, k), clock)
      && res.1 == Store(s.campaigns, s.codes[k := s.codes[k].(used := true, usedAt := Some(now))])
  {
    var res := Validate.Redeem(Validate.RedeemRequest(Some(token)), s, now, clock, None);
    assert Validate.FirstMatch(s, token) == Some(k);
    var row := s.codes[k].(used := true, usedAt := Some(now));
    forall j | 0 <= j < |s.codes|
      ensures res.1.codes[j] == s.codes[k := row][j]
    {
      assert Validate.UpdatedRow(s.codes[j], res.1.codes[j], token, now);
    }
    assert res.1.codes == s.codes[k := row];
  }

  /** A redemption of a token only row `k` carries moves exactly that row's campaign on
      the listing page: one more used code and the row's amount more raised; totals, order
      and every other campaign stay as they were. */
  lemma RedeemRaisesAggregates(s: Store, token: string, k: nat, now: Timestamp, clock: Timestamp)
    requires token != "" && Validate.CanRedeem(s, token)
    requires k < |s.codes| && s.codes[k].uniqueCode == token
    requires forall j :: 0 <= j < |s.codes| && j != k ==> s.codes[j].uniqueCode != token
    ensures var s' := Validate.Redeem(Validate.RedeemRequest(Some(token)), s, now, clock, None).1;
      var before, after := GetCampaigns(s), GetCampaigns(s');
      && |after| == |before|
      && forall i :: 0 <= i < |before| ==>
           && after[i].campaign == before[i].campaign
           && after[i].totalCodes == before[i].totalCodes
           && (before[i].campaign.id == s.codes[k].campaignId ==>
                 after[i].usedCodes == before[i].usedCodes + 1
                 && after[i].currentAmount == before[i].currentAmount + s.codes[k].amount)
           && (before[i].campaign.id != s.codes[k].campaignId ==>
                 after[i].usedCodes == before[i].usedCodes
                 && after[i].currentAmount == before[i].currentAmount)
  {
    RedeemRewritesOneRow(s, token, k, now, clock);
    var row := s.codes[k].(used := true, usedAt := Some(now));
    assert !s.codes[k].used by {
      assert Validate.FirstMatch(s, token) == Some(k);
    }
    var s' := Store(s.campaigns, s.codes[k := row]);
    var before, after := GetCampaigns(s), GetCampaigns(s');
    forall i | 0 <= i < |before|
      ensures after[i].campaign == before[i].campaign
      ensures after[i] == Summarize(before[i].campaign, s.codes[k := row])
    {
    }
    forall i | 0 <= i < |before|
      ensures var id := before[i].campaign.id;
        && TotalCodes(s'.codes, id) == TotalCodes(s.codes, id)
        && UsedCodes(s'.codes, id) == UsedCodes(s.codes, id) + (if s.codes[k].campaignId == id then 1 else 0)
        && UsedAmount(s'.codes, id) == UsedAmount(s.codes, id) + (if s.codes[k].campaignId == id then s.codes[k].amount else 0.0)
    {
      AggregatesAfterUse(s.codes, k, row, before[i].campaign.id);
    }
  }

  /** Appending a new campaign with a batch of its own unused rows leaves every existing
      campaign's aggregates unchanged; the new campaign shows all its codes, none used. */
  lemma AppendBatchAggregates(s: Store, c: Campaign, rows: seq<CodeRow>)
    requires ReferencesValid(s) && c.id == NextCampaignId(s)
    requires forall i :: 0 <= i < |rows| ==> rows[i].campaignId == c.id && !rows[i].used
    ensures Summarize(c, s.codes + rows) == CampaignSummary(c, |rows|, 0, 0.0)
    ensures forall j :: 0 <= j < |s.campaigns| ==> Summarize(s.campaigns[j], s.codes + rows) == Summarize(s.campaigns[j], s.codes)
  {
    NoRowsForFreshCampaign(s);
    NoRowsMeansZeros(s.codes, c.id);
    AggregatesOfConcat(s.codes, rows, c.id);
    UnusedBatchAggregates(rows, c.id, c.id);
    forall j | 0 <= j < |s.campaigns|
      ensures Summarize(s.campaigns[j], s.codes + rows) == Summarize(s.campaigns[j], s.codes)
    {
      AggregatesOfConcat(s.codes, rows, s.campaigns[j].id);
      UnusedBatchAggregates(rows, c.id, s.campaigns[j].id);
    }
  }

  /** Creating a campaign leaves every existing campaign's aggregates unchanged, and the new
      campaign shows all its codes, none used and nothing raised. */
  lemma CreateAddsFreshAggregates(req: Generate.CampaignRequest, s: Store, oracle: seq<Generate.Sample>,
                                  now: Timestamp, fault: Option<nat>)
    requires ReferencesValid(s)
    requires Generate.CreateCampaign(req, s, oracle, now, fault).0.Created?
    ensures var res := Generate.CreateCampaign(req, s, oracle, now, fault);
      var c := Generate.NewCampaign(req, NextCampaignId(s), now);
      && |GetCampaigns(res.1)| == |GetCampaigns(s)| + 1
      && Summarize(c, res.1.codes) == CampaignSummary(c, res.0.codesGenerated, 0, 0.0)
      && forall j :: 0 <= j < |s.campaigns| ==> Summarize(s.campaigns[j], res.1.codes) == Summarize(s.campaigns[j], s.codes)
  {
    var res := Generate.CreateCampaign(req, s, oracle, now, fault);
    var rows := res.1.codes[|s.codes|..];
    assert res.1.codes == s.codes + rows;
    assert Generate.IsGeneratedBatch(s, rows, NextCampaignId(s), req.codeAmount.value, res.0.codesGenerated);
    AppendBatchAggregates(s, Generate.NewCampaign(req, NextCampaignId(s), now), rows);
  }

  /** A successful creation keeps the foreign key and used/used_at consistency: every new row refers
      to the new campaign and is unused with no redemption time. */
  lemma CreatePreservesInvariants(req: Generate.CampaignRequest, s: Store, oracle: seq<Generate.Sample>,
                                  now: Timestamp, fault: Option<nat>)
    ensures var s' := Generate.CreateCampaign(req, s, oracle, now, fault).1;
      && (ReferencesValid(s) ==> ReferencesValid(s'))
      && (UsedAtConsistent(s) ==> UsedAtConsistent(s'))
  {
    var res := Generate.CreateCampaign(req, s, oracle, now, fault);
    if res.0.Created? {
      var s' := res.1;
      var cid := NextCampaignId(s);
      var rows := s'.codes[|s.codes|..];
      assert Generate.IsGeneratedBatch(s, rows, cid, req.codeAmount.value, res.0.codesGenerated);
      assert s'.campaigns[|s.campaigns|].id == cid;
      forall i | 0 <= i < |s'.codes|
        ensures ReferencesValid(s) ==> HasCampaign(s', s'.codes[i].campaignId)
        ensures UsedAtConsistent(s) ==> (s'.codes[i].used <==> s'.codes[i].usedAt.Some?)
      {
        if i < |s.codes| {
          assert s'.codes[i] == s.codes[i];
          if ReferencesValid(s) {
            assert HasCampaign(s, s.codes[i].campaignId);
            var j :| 0 <= j < |s.campaigns| && s.campaigns[j].id == s.codes[i].campaignId;
            assert s'.campaigns[j] == s.campaigns[j];
          }
        } else {
          assert s'.codes[i] == rows[i - |s.codes|];
        }
      }
    }
  }

  /** A code of a new campaign whose token no earlier row carries redeems for exactly the
      `codeAmount` the campaign was created with. */
  lemma RedeemedAmountIsCodeAmount(req: Generate.CampaignRequest, s: Store, oracle: seq<Generate.Sample>,
                                   now: Timestamp, fault: Option<nat>, k: nat, now2: Timestamp, clock2: Timestamp)
    requires Generate.CreateCampaign(req, s, oracle, now, fault).0.Created?
    requires k < Generate.CreateCampaign(req, s, oracle, now, fault).0.codesGenerated
    requires var token := Generate.CreateCampaign(req, s, oracle, now, fault).1.codes[|s.codes| + k].uniqueCode;
      forall j :: 0 <= j < |s.codes| ==> s.codes[j].uniqueCode != token
    ensures var s' := Generate.CreateCampaign(req, s, oracle, now, fault).1;
      var token := s'.codes[|s.codes| + k].uniqueCode;
      var r := Validate.Redeem(Validate.RedeemRequest(Some(token)), s', now2, clock2, None).0;
      r.Redeemed? && r.amount == req.codeAmount.value
  {
    var s' := Generate.CreateCampaign(req, s, oracle, now, fault).1;
    var cid := NextCampaignId(s);
    var token := s'.codes[|s.codes| + k].uniqueCode;
    assert s'.campaigns[|s.campaigns|].id == cid;
    assert FindCampaign(s'.campaigns, cid).Some?;
    assert Validate.Joins(s', |s.codes| + k, token);
    var m := Validate.FirstMatch(s', token);
    assert m.Some?;
    assert m.value >= |s.codes|;
    assert s'.codes[m.value] == s'.codes[|s.codes|..][m.value - |s.codes|];
  }
}
