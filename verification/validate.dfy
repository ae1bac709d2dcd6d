/** `POST /api/validate`: redeem one code. The call is one atomic step on the store:
    look the token up (joined with its campaign), refuse a used code, otherwise mark
    every row carrying the token as used and answer with the matched row's amount and
    campaign name.

    `fault`, when present, is the index of the query that throws: 0 is `BEGIN`, 1 the
    locking `SELECT`, 2 the `ROLLBACK` of a refused code or the `UPDATE` of an accepted
    one, 3 the `COMMIT`. A thrown query rolls back and answers 500. */
module Validate {
  import opened Wrappers
  import opened Store

  datatype RedeemRequest = RedeemRequest(uniqueCode: Option<string>)

  datatype RedeemResponse =
    | Redeemed(amount: real, campaignName: string, validatedAt: Timestamp)
    | CodeRequired
    | InvalidCode
    | AlreadyUsed
    | InternalError
  {
    function Status(): int {
      match this
      case Redeemed(_, _, _) => 200
      case CodeRequired => 400
      case InvalidCode => 404
      case AlreadyUsed => 400
      case InternalError => 500
    }

    function Message(): string {
      match this
      case Redeemed(_, _, _) => "Code validated successfully"
      case CodeRequired => "Unique code is required"
      case InvalidCode => "Invalid code"
      case AlreadyUsed => "Code has already been used"
      case InternalError => "Internal server error"
    }
  }

  /** Row `i` is a row of the lookup: it carries `token` and its campaign exists. */
  predicate Joins(s: Store, i: nat, token: string)
    requires i < |s.codes|
  {
    s.codes[i].uniqueCode == token && HasCampaign(s, s.codes[i].campaignId)
  }

  /** The first row of the lookup at or after position `k`, in storage order. */
  function FirstMatchFrom(s: Store, token: string, k: nat): (m: Option<nat>)
    requires k <= |s.codes|
    ensures m.Some? ==> k <= m.value < |s.codes| && Joins(s, m.value, token)
    ensures m.Some? ==> forall j :: k <= j < m.value ==> !Joins(s, j, token)
    ensures m.None? ==> forall j :: k <= j < |s.codes| ==> !Joins(s, j, token)
    decreases |s.codes| - k
  {
    if k == |s.codes| then None
    else if Joins(s, k, token) then Some(k)
    else FirstMatchFrom(s, token, k + 1)
  }

  /** `checkResult.rows[0]`, as a position in `unique_codes`. */
  function FirstMatch(s: Store, token: string): Option<nat>
  {
    FirstMatchFrom(s, token, 0)
  }

  /** Whether a redemption of `token` passes both business checks. */
  predicate CanRedeem(s: Store, token: string) {
    var m := FirstMatch(s, token);
    m.Some? && !s.codes[m.value].used
  }

  /** The campaign name the join reports for row `i`. */
  function MatchedName(s: Store, i: nat): string
    requires i < |s.codes| && HasCampaign(s, s.codes[i].campaignId)
  {
    FindCampaign(s.campaigns, s.codes[i].campaignId).value.name
  }

  /** The `UPDATE`: every row whose token equals `token`, in any campaign, becomes used at `now`. */
  function MarkUsed(codes: seq<CodeRow>, token: string, now: Timestamp): seq<CodeRow> {
    seq(|codes|, i requires 0 <= i < |codes| =>
      if codes[i].uniqueCode == token then codes[i].(used := true, usedAt := Some(now)) else codes[i])
  }

  /** The result of the `UPDATE` on one row: used at `now` when it carries `token`, otherwise untouched. */
  predicate UpdatedRow(before: CodeRow, after: CodeRow, token: string, now: Timestamp) {
    if before.uniqueCode == token then after == before.(used := true, usedAt := Some(now))
    else after == before
  }

  /** The number of queries the call makes when none of them fails: none without a token;
      `BEGIN`, the `SELECT` and the `ROLLBACK` for an unknown or used code; `BEGIN`, the
      `SELECT`, the `UPDATE` and `COMMIT` for a redeemable one. */
  function RedeemQueries(req: RedeemRequest, s: Store): nat {
    if req.uniqueCode.None? || req.uniqueCode.value == "" then 0
    else if CanRedeem(s, req.uniqueCode.value) then 4
    else 3
  }

  /** The `POST` handler. `now` is the database's `CURRENT_TIMESTAMP`, `clock` the server
      clock that stamps `validated_at`. */
  function Redeem(req: RedeemRequest, s: Store, now: Timestamp, clock: Timestamp, fault: Option<nat>)
    : (res: (RedeemResponse, Store))
    ensures req.uniqueCode.None? || req.uniqueCode.value == "" ==> res == (CodeRequired, s)
    ensures !res.0.Redeemed? ==> res.1 == s
    ensures res.0.InternalError? ==> FaultIn(fault, 0, 4)
    ensures req.uniqueCode.Some? && req.uniqueCode.value != "" && FaultIn(fault, 0, 3) ==> res == (InternalError, s)
    ensures res.0.Redeemed? ==> !FaultIn(fault, 0, 4)
    ensures res.0.InternalError? <==> FaultIn(fault, 0, RedeemQueries(req, s))
    ensures req.uniqueCode.Some? && req.uniqueCode.value != "" && CanRedeem(s, req.uniqueCode.value) && fault == Some(3)
      ==> res == (InternalError, s)
    ensures fault.None? && req.uniqueCode.Some? && req.uniqueCode.value != "" ==>
      && (FirstMatch(s, req.uniqueCode.value).None? <==> res.0 == InvalidCode)
      && (CanRedeem(s, req.uniqueCode.value) <==> res.0.Redeemed?)
      && (!CanRedeem(s, req.uniqueCode.value) && FirstMatch(s, req.uniqueCode.value).Some? <==> res.0 == AlreadyUsed)
    ensures res.0.Redeemed? ==>
      var token := req.uniqueCode.value;
      CanRedeem(s, token) &&
      var i := FirstMatch(s, token).value;
      && res.0.amount == s.codes[i].amount
      && res.0.campaignName == MatchedName(s, i)
      && res.0.validatedAt == clock
      && res.1.campaigns == s.campaigns
      && |res.1.codes| == |s.codes|
      && forall j :: 0 <= j < |s.codes| ==> UpdatedRow(s.codes[j], res.1.codes[j], token, now)
  {
    if req.uniqueCode.None? || req.uniqueCode.value == "" then (CodeRequired, s)
    else if FaultIn(fault, 0, 2) then (InternalError, s)
    else
      var token := req.uniqueCode.value;
      match FirstMatch(s, token)
      case None => (if fault == Some(2) then InternalError else InvalidCode, s)
      case Some(i) =>
        if s.codes[i].used then (if fault == Some(2) then InternalError else AlreadyUsed, s)
        else if FaultIn(fault, 2, 4) then (InternalError, s)
        else (Redeemed(s.codes[i].amount, MatchedName(s, i), clock),
              Store(s.campaigns, MarkUsed(s.codes, token, now)))
  }

  /** A fault scheduled past the last query the call makes strikes nothing: the answer and
      the store are those of the call with no fault. */
  lemma UnreachedFaultChangesNothing(req: RedeemRequest, s: Store, now: Timestamp, clock: Timestamp, f: nat)
    requires RedeemQueries(req, s) <= f
    ensures Redeem(req, s, now, clock, Some(f)) == Redeem(req, s, now, clock, None)
  {
  }

  /** The `UPDATE` changes neither tokens nor campaigns, so the lookup finds the same row after it. */
  lemma FirstMatchAfterMarkUsed(s: Store, token: string, other: string, now: Timestamp)
    ensures FirstMatch(Store(s.campaigns, MarkUsed(s.codes, token, now)), other) == FirstMatch(s, other)
  {
    var s' := Store(s.campaigns, MarkUsed(s.codes, token, now));
    assert forall j :: 0 <= j < |s.codes| ==> (Joins(s, j, other) <==> Joins(s', j, other));
  }

  /** Sequential exactly-once: an unused code redeems, and the same code on the
      resulting store is refused as already used, leaving that store as it is. */
  lemma RedeemExactlyOnce(s: Store, token: string, now: Timestamp, clock: Timestamp, now2: Timestamp, clock2: Timestamp)
    requires token != "" && CanRedeem(s, token)
    ensures var first := Redeem(RedeemRequest(Some(token)), s, now, clock, None);
      && first.0.Redeemed?
      && Redeem(RedeemRequest(Some(token)), first.1, now2, clock2, None) == (AlreadyUsed, first.1)
  {
    var s' := Redeem(RedeemRequest(Some(token)), s, now, clock, None).1;
    FirstMatchAfterMarkUsed(s, token, token, now);
    assert !CanRedeem(s', token);
  }

  /** A redemption keeps used/used_at consistency, never turns a used code back to unused, and never
      changes a row's campaign, token or amount. */
  lemma RedeemPreservesInvariants(req: RedeemRequest, s: Store, now: Timestamp, clock: Timestamp, fault: Option<nat>)
    ensures var s' := Redeem(req, s, now, clock, fault).1;
      && (UsedAtConsistent(s) ==> UsedAtConsistent(s'))
      && (ReferencesValid(s) ==> ReferencesValid(s'))
      && s'.campaigns == s.campaigns
      && |s'.codes| == |s.codes|
      && forall j :: 0 <= j < |s.codes| ==>
           && (s.codes[j].used ==> s'.codes[j].used)
           && s'.codes[j].campaignId == s.codes[j].campaignId
           && s'.codes[j].uniqueCode == s.codes[j].uniqueCode
           && s'.codes[j].amount == s.codes[j].amount
  {
  }

  /** `attempts` redemptions of one token, one after another, each with no fault. */
  function RedeemRepeatedly(s: Store, token: string, attempts: nat, now: Timestamp, clock: Timestamp)
    : (res: (seq<RedeemResponse>, Store))
    ensures |res.0| == attempts
    decreases attempts
  {
    if attempts == 0 then ([], s)
    else
      var (r, s') := Redeem(RedeemRequest(Some(token)), s, now, clock, None);
      var (rs, s'') := RedeemRepeatedly(s', token, attempts - 1, now, clock);
      ([r] + rs, s'')
  }

  /** Once a code is used, every later attempt is refused and changes nothing. */
  lemma {:induction false} RepeatedAfterUse(s: Store, token: string, attempts: nat, now: Timestamp, clock: Timestamp)
    requires token != "" && FirstMatch(s, token).Some? && !CanRedeem(s, token)
    ensures var res := RedeemRepeatedly(s, token, attempts, now, clock);
      res.1 == s && forall k :: 0 <= k < attempts ==> res.0[k] == AlreadyUsed
    decreases attempts
  {
    if attempts > 0 {
      RepeatedAfterUse(s, token, attempts - 1, now, clock);
    }
  }

  /** Of `attempts` serialised redemptions of an unused code, exactly the first succeeds
      and every other one is refused as already used. */
  lemma ExactlyOneOfMany(s: Store, token: string, attempts: nat, now: Timestamp, clock: Timestamp)
    requires token != "" && CanRedeem(s, token) && attempts >= 1
    ensures var outcomes := RedeemRepeatedly(s, token, attempts, now, clock).0;
      && outcomes[0].Redeemed?
      && forall k :: 1 <= k < attempts ==> outcomes[k] == AlreadyUsed
  {
    var s' := Redeem(RedeemRequest(Some(token)), s, now, clock, None).1;
    RedeemExactlyOnce(s, token, now, clock, now, clock);
    FirstMatchAfterMarkUsed(s, token, token, now);
    RepeatedAfterUse(s', token, attempts - 1, now, clock);
  }
}
