/** The two tables the handlers share, `campaigns` and `unique_codes`, as one immutable value.
    A handler call is one atomic step from a store to a store; row locks and the
    transaction plumbing of PostgreSQL are below this level of detail. */
module Store {
  import opened Wrappers

  /** A point in time, as the database's `CURRENT_TIMESTAMP` or the server clock gives it. */
  type Timestamp = int

  /** A row of `campaigns`. `currentAmount` is the column written at creation;
      the listing page recomputes it from the codes instead of reading it. */
  datatype Campaign = Campaign(
    id: nat,
    name: string,
    startDate: string,
    endDate: Option<string>,
    targetAmount: real,
    currentAmount: real,
    maxCodes: int,
    createdAt: Timestamp)

  /** A row of `unique_codes`. */
  datatype CodeRow = CodeRow(
    id: nat,
    campaignId: nat,
    uniqueCode: string,
    amount: real,
    used: bool,
    usedAt: Option<Timestamp>,
    createdAt: Timestamp)

  datatype Store = Store(campaigns: seq<Campaign>, codes: seq<CodeRow>)

  /** The largest of a column of ids, 0 for an empty table. */
  function MaxId(ids: seq<nat>): (m: nat)
    ensures forall i :: 0 <= i < |ids| ==> ids[i] <= m
  {
    if |ids| == 0 then 0
    else var m := MaxId(ids[..|ids| - 1]);
      if ids[|ids| - 1] > m then ids[|ids| - 1] else m
  }

  /** The id the `campaigns` serial column hands out next: larger than every id in use. */
  function NextCampaignId(s: Store): (id: nat)
    ensures forall i :: 0 <= i < |s.campaigns| ==> s.campaigns[i].id < id
  {
    var ids := seq(|s.campaigns|, i requires 0 <= i < |s.campaigns| => s.campaigns[i].id);
    assert forall i :: 0 <= i < |s.campaigns| ==> s.campaigns[i].id == ids[i];
    MaxId(ids) + 1
  }

  /** The id the `unique_codes` serial column hands out next. */
  function NextCodeId(s: Store): (id: nat)
    ensures forall i :: 0 <= i < |s.codes| ==> s.codes[i].id < id
  {
    var ids := seq(|s.codes|, i requires 0 <= i < |s.codes| => s.codes[i].id);
    assert forall i :: 0 <= i < |s.codes| ==> s.codes[i].id == ids[i];
    MaxId(ids) + 1
  }

  /** A fault schedule names the one store query of a handler call that throws, counting
      the call's queries from 0; `None` is a call in which every query succeeds.
      This predicate says whether it strikes one of the queries `lo` to `hi - 1`. */
  predicate FaultIn(fault: Option<nat>, lo: nat, hi: nat) {
    fault.Some? && lo <= fault.value < hi
  }

  /** The first campaign row with the given id, as `JOIN campaigns c ON c.id = ...` finds it. */
  function FindCampaign(cs: seq<Campaign>, id: nat): (c: Option<Campaign>)
    ensures c.Some? ==> exists j :: 0 <= j < |cs| && cs[j] == c.value && c.value.id == id
    ensures c.None? <==> forall j :: 0 <= j < |cs| ==> cs[j].id != id
  {
    if |cs| == 0 then None
    else if cs[0].id == id then Some(cs[0])
    else FindCampaign(cs[1..], id)
  }

  predicate HasCampaign(s: Store, id: nat) {
    FindCampaign(s.campaigns, id).Some?
  }

  /** The foreign key `unique_codes.campaign_id -> campaigns.id`. */
  predicate ReferencesValid(s: Store) {
    forall i :: 0 <= i < |s.codes| ==> HasCampaign(s, s.codes[i].campaignId)
  }

  /** Used/used_at consistency: a code is used exactly when it carries a redemption time. */
  predicate UsedAtConsistent(s: Store) {
    forall i :: 0 <= i < |s.codes| ==> (s.codes[i].used <==> s.codes[i].usedAt.Some?)
  }

  /** Under the foreign key, no row refers to a campaign id the store has not yet issued. */
  lemma NoRowsForFreshCampaign(s: Store)
    requires ReferencesValid(s)
    ensures forall i :: 0 <= i < |s.codes| ==> s.codes[i].campaignId != NextCampaignId(s)
  {
    forall i | 0 <= i < |s.codes|
      ensures s.codes[i].campaignId != NextCampaignId(s)
    {
      assert HasCampaign(s, s.codes[i].campaignId);
    }
  }
}
