/** `POST /api/generate`: validate a campaign request, insert the campaign, draw one
    12-digit token per requested code, bulk-insert the code rows and commit.

    The handler is a pure function of the request, the store, a random oracle and a
    fault schedule:
    - the oracle is the sequence of draws the handler would make, in order, each draw
      being the token's value minus 100000000000, that is
      `Math.floor(100000000000 + Math.random() * 900000000000) - 100000000000`; the source's retry loop is unbounded, so the
      model stops with `DrawsExhausted` when the oracle runs out;
    - `fault`, when present, is the index of the store query that throws
      (0 is `BEGIN`, 1 the campaign insert, then one query per uniqueness check,
      then the bulk insert and `COMMIT`). A thrown query rolls the transaction back. */
module Generate {
  import opened Wrappers
  import opened Decimal
  import opened Store

  /** The cap on `maxCodes`. */
  const MaxCodesLimit := 25000

  /** The smallest token value; every token is this plus one draw. */
  const MinToken: nat := 100000000000

  /** The largest token value. */
  const MaxToken: nat := 999999999999

  /** One draw: the value of the token it gives, minus 100000000000. */
  type Sample = d: int | 0 <= d < 900000000000

  /** The request body. `None` is a field that is absent (`undefined` or `null`). */
  datatype CampaignRequest = CampaignRequest(
    name: Option<string>,
    startDate: Option<string>,
    endDate: Option<string>,
    targetAmount: Option<real>,
    codeAmount: Option<real>,
    maxCodes: Option<int>)

  datatype GenerateResponse =
    | Created(campaignId: nat, name: string, codesGenerated: nat)
    | BadRequest(message: string)
    | ServerError(message: string)
      /** The oracle ran out while the retry loop still wanted a draw. */
    | DrawsExhausted
  {
    function Status(): int {
      match this
      case Created(_, _, _) => 201
      case BadRequest(_) => 400
      case ServerError(_) => 500
      case DrawsExhausted => 500
    }
  }

  const MissingFieldsMessage := "Missing required fields"
  const TooManyCodesMessage := "Max codes cannot exceed 25000"
  const TransactionMessage := "Error creating campaign and generating codes"

  /** JavaScript truthiness of a string field: present and non-empty. */
  predicate TruthyString(v: Option<string>) {
    v.Some? && v.value != ""
  }

  /** JavaScript truthiness of a numeric field: present and non-zero. */
  predicate TruthyReal(v: Option<real>) {
    v.Some? && v.value != 0.0
  }

  predicate TruthyInt(v: Option<int>) {
    v.Some? && v.value != 0
  }

  /** The first validation guard passes: every required field is truthy. */
  predicate HasRequiredFields(req: CampaignRequest) {
    && TruthyString(req.name)
    && TruthyString(req.startDate)
    && TruthyReal(req.targetAmount)
    && TruthyReal(req.codeAmount)
    && TruthyInt(req.maxCodes)
  }

  /** Both validation guards pass. */
  predicate IsValidRequest(req: CampaignRequest) {
    HasRequiredFields(req) && req.maxCodes.value <= MaxCodesLimit
  }

  /** How many times `for (let i = 0; i < maxCodes; i++)` runs. */
  function LoopCount(maxCodes: int): (n: nat)
    ensures maxCodes <= 0 ==> n == 0
    ensures maxCodes >= 0 ==> n == maxCodes
  {
    if maxCodes < 0 then 0 else maxCodes
  }

  /** What a generated token looks like: twelve digits, the first non-zero. */
  predicate IsCodeToken(t: string) {
    |t| == 12 && IsDigits(t) && t[0] != '0'
  }

  lemma Pow10Twelve()
    ensures Pow10(11) == MinToken && Pow10(12) == MaxToken + 1
  {
    assert Pow10(1) == 10;
    assert Pow10(2) == 100;
    assert Pow10(3) == 1000;
    assert Pow10(4) == 10000;
    assert Pow10(5) == 100000;
    assert Pow10(6) == 1000000;
    assert Pow10(7) == 10000000;
    assert Pow10(8) == 100000000;
    assert Pow10(9) == 1000000000;
    assert Pow10(10) == 10000000000;
    assert Pow10(11) == 100000000000;
    assert Pow10(12) == 1000000000000;
  }

  /** The token a draw produces: the decimal text of `100000000000 + d`. */
  function Token(d: Sample): (t: string)
    ensures IsCodeToken(t)
  {
    Pow10Twelve();
    NatToStringLength(MinToken + d, 11);
    NatToString(MinToken + d)
  }

  /** A token reads back as the number it was drawn as, within the twelve-digit range. */
  lemma TokenValue(d: Sample)
    ensures ParseNat(Token(d)) == MinToken + d
    ensures MinToken <= ParseNat(Token(d)) <= MaxToken
  {
    ParseNatToString(MinToken + d);
  }

  /** Different draws give different tokens, and equal draws equal ones. */
  lemma TokenInjective(a: Sample, b: Sample)
    ensures Token(a) == Token(b) <==> a == b
  {
    TokenValue(a);
    TokenValue(b);
  }

  /** `checkUniqueCodeExists`: a committed row of campaign `cid` carries `token`.
      It reads the store only, never the batch buffered so far. */
  predicate CodeExists(s: Store, token: string, cid: nat) {
    exists i :: 0 <= i < |s.codes| && s.codes[i].uniqueCode == token && s.codes[i].campaignId == cid
  }

  /** The number of rows `SELECT 1 FROM unique_codes WHERE unique_code = token AND
      campaign_id = cid` returns. */
  function SelectOne(codes: seq<CodeRow>, token: string, cid: nat): nat {
    if |codes| == 0 then 0
    else
      var r := codes[|codes| - 1];
      SelectOne(codes[..|codes| - 1], token, cid) + (if r.uniqueCode == token && r.campaignId == cid then 1 else 0)
  }

  /** The query returns a row exactly when some committed row of `cid` carries `token`. */
  lemma {:induction false} SelectOneFinds(codes: seq<CodeRow>, token: string, cid: nat)
    ensures SelectOne(codes, token, cid) > 0
        <==> exists i :: 0 <= i < |codes| && codes[i].uniqueCode == token && codes[i].campaignId == cid
    decreases |codes|
  {
    if |codes| > 0 {
      var n := |codes| - 1;
      SelectOneFinds(codes[..n], token, cid);
      assert forall i :: 0 <= i < n ==> codes[..n][i] == codes[i];
      if codes[n].uniqueCode == token && codes[n].campaignId == cid {
        assert codes[n].uniqueCode == token && codes[n].campaignId == cid;
      }
    }
  }

  /** `checkUniqueCodeExists(uniqueCode, campaignId)`: `result.rows.length > 0`. It reads
      the committed store and never the batch buffered so far. */
  function CheckUniqueCodeExists(s: Store, token: string, cid: nat): (found: bool)
    ensures found <==> CodeExists(s, token, cid)
  {
    SelectOneFinds(s.codes, token, cid);
    SelectOne(s.codes, token, cid) > 0
  }

  /** Outcome of one `do { draw } while (exists)` loop. */
  datatype Draw =
    | Drawn(token: string, next: nat, queries: nat)
    | DrawFault
    | DrawOut

  /** Every draw from `lo` to `hi - 1` names a token the store already holds for `cid`. */
  predicate AllTaken(s: Store, cid: nat, oracle: seq<Sample>, lo: nat, hi: nat)
    requires lo <= hi <= |oracle|
  {
    forall k :: lo <= k < hi ==> CodeExists(s, Token(oracle[k]), cid)
  }

  /** The retry loop for one code, starting at oracle position `pos` with `q` queries
      made so far: draw, check, and draw again while the check finds the token. */
  function DrawUnique(s: Store, cid: nat, oracle: seq<Sample>, pos: nat, q: nat, fault: Option<nat>): (d: Draw)
    requires pos <= |oracle|
    ensures d.Drawn? ==> pos < d.next <= |oracle| && d.queries == q + (d.next - pos)
    ensures d.DrawFault? ==> FaultIn(fault, q, q + (|oracle| - pos))
    decreases |oracle| - pos
  {
    if pos == |oracle| then DrawOut
    else if fault == Some(q) then DrawFault
    else
      var t := Token(oracle[pos]);
      if CodeExists(s, t, cid) then DrawUnique(s, cid, oracle, pos + 1, q + 1, fault)
      else Drawn(t, pos + 1, q + 1)
  }

  /** An accepted token is the text of the last draw, the check did not find it, every
      earlier draw of the loop was found, and no query of the loop failed. */
  lemma {:induction false} DrawUniqueSound(s: Store, cid: nat, oracle: seq<Sample>, pos: nat, q: nat, fault: Option<nat>)
    requires pos <= |oracle|
    ensures var d := DrawUnique(s, cid, oracle, pos, q, fault);
      d.Drawn? ==>
        && d.token == Token(oracle[d.next - 1])
        && !CodeExists(s, d.token, cid)
        && AllTaken(s, cid, oracle, pos, d.next - 1)
        && !FaultIn(fault, q, d.queries)
    decreases |oracle| - pos
  {
    if pos < |oracle| && fault != Some(q) && CodeExists(s, Token(oracle[pos]), cid) {
      DrawUniqueSound(s, cid, oracle, pos + 1, q + 1, fault);
    }
  }

  /** Outcome of the whole `for` loop: the buffered tokens in draw order. */
  datatype Batch =
    | Tokens(tokens: seq<string>, next: nat, queries: nat)
    | BatchFault
    | BatchOut

  /** `Tokens(prefix + ts)` for a batch `Tokens(ts)`; failures pass through. */
  function Prepend(prefix: seq<string>, b: Batch): Batch {
    match b
    case Tokens(ts, p, q) => Tokens(prefix + ts, p, q)
    case _ => b
  }

  /** Every token is well formed and absent from the store's rows for `cid`. */
  predicate FreshTokens(s: Store, cid: nat, ts: seq<string>) {
    forall i :: 0 <= i < |ts| ==> IsCodeToken(ts[i]) && !CodeExists(s, ts[i], cid)
  }

  lemma FreshTokensCons(s: Store, cid: nat, t: string, ts: seq<string>)
    requires IsCodeToken(t) && !CodeExists(s, t, cid) && FreshTokens(s, cid, ts)
    ensures FreshTokens(s, cid, [t] + ts)
  {
    forall i | 0 <= i < |[t] + ts|
      ensures IsCodeToken(([t] + ts)[i]) && !CodeExists(s, ([t] + ts)[i], cid)
    {
      if i > 0 {
        assert ([t] + ts)[i] == ts[i - 1];
      }
    }
  }

  lemma PrependEmpty(x: Batch)
    ensures Prepend([], x) == x
  {
    if x.Tokens? {
      assert [] + x.tokens == x.tokens;
    }
  }

  lemma PrependConcat(a: seq<string>, b: seq<string>, x: Batch)
    ensures Prepend(a, Prepend(b, x)) == Prepend(a + b, x)
  {
    if x.Tokens? {
      assert a + (b + x.tokens) == (a + b) + x.tokens;
    }
  }

  /** The `for` loop: `n` more codes, each from one retry loop. */
  function GenerateTokens(s: Store, cid: nat, oracle: seq<Sample>, n: nat, pos: nat, q: nat, fault: Option<nat>): (b: Batch)
    requires pos <= |oracle|
    ensures b.Tokens? ==> |b.tokens| == n && pos + n <= b.next <= |oracle| && b.queries == q + (b.next - pos)
    ensures b.BatchFault? ==> fault.Some? && q <= fault.value
    decreases n
  {
    if n == 0 then Tokens([], pos, q)
    else
      match DrawUnique(s, cid, oracle, pos, q, fault)
      case DrawFault => BatchFault
      case DrawOut => BatchOut
      case Drawn(t, p, q') => Prepend([t], GenerateTokens(s, cid, oracle, n - 1, p, q', fault))
  }

  /** Every buffered token is well formed and was absent from the store's rows for the
      campaign when it was checked, and no query of the loop failed. */
  lemma {:induction false} GenerateTokensSound(s: Store, cid: nat, oracle: seq<Sample>, n: nat, pos: nat, q: nat, fault: Option<nat>)
    requires pos <= |oracle|
    ensures var b := GenerateTokens(s, cid, oracle, n, pos, q, fault);
      b.Tokens? ==> FreshTokens(s, cid, b.tokens) && !FaultIn(fault, q, b.queries)
    decreases n
  {
    if n > 0 {
      DrawUniqueSound(s, cid, oracle, pos, q, fault);
      var d := DrawUnique(s, cid, oracle, pos, q, fault);
      if d.Drawn? {
        GenerateTokensSound(s, cid, oracle, n - 1, d.next, d.queries, fault);
        var rest := GenerateTokens(s, cid, oracle, n - 1, d.next, d.queries, fault);
        if rest.Tokens? {
          FreshTokensCons(s, cid, d.token, rest.tokens);
        }
      }
    }
  }

  /** A retry loop that accepts a token under a fault schedule made no failing query, so
      it is the loop of a call in which every query succeeds. */
  lemma {:induction false} DrawUniqueFaultFree(s: Store, cid: nat, oracle: seq<Sample>, pos: nat, q: nat, fault: Option<nat>)
    requires pos <= |oracle|
    ensures var d := DrawUnique(s, cid, oracle, pos, q, fault);
      d.Drawn? ==> DrawUnique(s, cid, oracle, pos, q, None) == d
    decreases |oracle| - pos
  {
    if pos < |oracle| && fault != Some(q) && CodeExists(s, Token(oracle[pos]), cid) {
      DrawUniqueFaultFree(s, cid, oracle, pos + 1, q + 1, fault);
    }
  }

  /** A completed `for` loop under a fault schedule is the loop of a call in which every
      query succeeds. */
  lemma {:induction false} GenerateTokensFaultFree(s: Store, cid: nat, oracle: seq<Sample>, n: nat, pos: nat, q: nat, fault: Option<nat>)
    requires pos <= |oracle|
    ensures var b := GenerateTokens(s, cid, oracle, n, pos, q, fault);
      b.Tokens? ==> GenerateTokens(s, cid, oracle, n, pos, q, None) == b
    decreases n
  {
    if n > 0 {
      DrawUniqueFaultFree(s, cid, oracle, pos, q, fault);
      var d := DrawUnique(s, cid, oracle, pos, q, fault);
      if d.Drawn? {
        GenerateTokensFaultFree(s, cid, oracle, n - 1, d.next, d.queries, fault);
      }
    }
  }

  /** The campaign row the handler inserts, with `current_amount` 0. */
  function NewCampaign(req: CampaignRequest, id: nat, now: Timestamp): Campaign
    requires HasRequiredFields(req)
  {
    Campaign(id, req.name.value, req.startDate.value, req.endDate, req.targetAmount.value,
             0.0, req.maxCodes.value, now)
  }

  /** The rows the bulk insert adds, in the order the tokens were buffered. */
  function NewCodeRows(tokens: seq<string>, cid: nat, amount: real, firstId: nat, now: Timestamp): seq<CodeRow> {
    seq(|tokens|, i requires 0 <= i < |tokens| => CodeRow(firstId + i, cid, tokens[i], amount, false, None, now))
  }

  /** Whether `rows` is a batch the handler may add for campaign `cid`: `n` unused rows
      with well-formed tokens, the request's amount, and tokens absent from the store. */
  predicate IsGeneratedBatch(s: Store, rows: seq<CodeRow>, cid: nat, amount: real, n: nat) {
    && |rows| == n
    && forall i :: 0 <= i < |rows| ==>
         && rows[i].campaignId == cid
         && rows[i].amount == amount
         && !rows[i].used
         && rows[i].usedAt == None
         && IsCodeToken(rows[i].uniqueCode)
         && !CodeExists(s, rows[i].uniqueCode, cid)
  }

  /** The `POST` handler: response and resulting store. */
  function CreateCampaign(req: CampaignRequest, s: Store, oracle: seq<Sample>, now: Timestamp, fault: Option<nat>)
    : (res: (GenerateResponse, Store))
    ensures !HasRequiredFields(req) ==> res == (BadRequest(MissingFieldsMessage), s)
    ensures HasRequiredFields(req) && req.maxCodes.value > MaxCodesLimit ==> res == (BadRequest(TooManyCodesMessage), s)
    ensures !res.0.Created? ==> res.1 == s
    ensures res.0.ServerError? ==> res.0.message == TransactionMessage && fault.Some?
    ensures IsValidRequest(req) ==> !res.0.BadRequest?
    ensures IsValidRequest(req) && FaultIn(fault, 0, 2) ==> res == (ServerError(TransactionMessage), s)
    ensures res.0.Created? ==> !FaultIn(fault, 0, 4 + res.0.codesGenerated)
    ensures res.0.ServerError? <==> FaultIn(fault, 0, QueriesMade(req, s, oracle))
    ensures res.0.Created? ==>
      && IsValidRequest(req)
      && res.0.campaignId == NextCampaignId(s)
      && res.0.name == req.name.value
      && res.0.codesGenerated == LoopCount(req.maxCodes.value)
      && res.1.campaigns == s.campaigns + [NewCampaign(req, NextCampaignId(s), now)]
      && |res.1.codes| == |s.codes| + res.0.codesGenerated
      && res.1.codes[..|s.codes|] == s.codes
      && IsGeneratedBatch(s, res.1.codes[|s.codes|..], NextCampaignId(s), req.codeAmount.value, res.0.codesGenerated)
  {
    if !HasRequiredFields(req) then (BadRequest(MissingFieldsMessage), s)
    else if req.maxCodes.value > MaxCodesLimit then (BadRequest(TooManyCodesMessage), s)
    else if FaultIn(fault, 0, 2) then (ServerError(TransactionMessage), s)
    else
      var cid := NextCampaignId(s);
      var n := LoopCount(req.maxCodes.value);
      GenerateTokensSound(s, cid, oracle, n, 0, 2, fault);
      GenerateTokensReached(s, cid, oracle, n, fault);
      match GenerateTokens(s, cid, oracle, n, 0, 2, fault)
      case BatchFault => (ServerError(TransactionMessage), s)
      case BatchOut => (DrawsExhausted, s)
      case Tokens(ts, _, q) =>
        if FaultIn(fault, q, q + 2) then (ServerError(TransactionMessage), s)
        else
          var rows := NewCodeRows(ts, cid, req.codeAmount.value, NextCodeId(s), now);
          assert IsGeneratedBatch(s, rows, cid, req.codeAmount.value, |ts|);
          var s' := Store(s.campaigns + [NewCampaign(req, cid, now)], s.codes + rows);
          assert s'.codes[..|s.codes|] == s.codes && s'.codes[|s.codes|..] == rows;
          (Created(cid, req.name.value, |ts|), s')
  }

  /** A fault at one of the queries a fault-free retry loop makes ends the loop with that
      fault; a fault at a later query leaves the loop as it is without faults. A loop that
      runs out of draws has checked every remaining draw, one query each. */
  lemma {:induction false} DrawUniqueUnderFault(s: Store, cid: nat, oracle: seq<Sample>, pos: nat, q: nat, f: nat)
    requires pos <= |oracle|
    ensures var d := DrawUnique(s, cid, oracle, pos, q, None);
      d.Drawn? ==>
        && (q <= f < d.queries ==> DrawUnique(s, cid, oracle, pos, q, Some(f)) == DrawFault)
        && (d.queries <= f ==> DrawUnique(s, cid, oracle, pos, q, Some(f)) == d)
    ensures var d := DrawUnique(s, cid, oracle, pos, q, None);
      d.DrawOut? ==>
        && (q <= f < q + (|oracle| - pos) ==> DrawUnique(s, cid, oracle, pos, q, Some(f)) == DrawFault)
        && (q + (|oracle| - pos) <= f ==> DrawUnique(s, cid, oracle, pos, q, Some(f)) == DrawOut)
    decreases |oracle| - pos
  {
    if pos < |oracle| && f != q && CodeExists(s, Token(oracle[pos]), cid) {
      DrawUniqueUnderFault(s, cid, oracle, pos + 1, q + 1, f);
    }
  }

  /** The same for the whole `for` loop: a fault at one of its fault-free queries ends it
      with that fault, a fault after them leaves the batch as it is. */
  lemma {:induction false} GenerateTokensUnderFault(s: Store, cid: nat, oracle: seq<Sample>, n: nat, pos: nat, q: nat, f: nat)
    requires pos <= |oracle|
    ensures var b := GenerateTokens(s, cid, oracle, n, pos, q, None);
      b.Tokens? ==>
        && (q <= f < b.queries ==> GenerateTokens(s, cid, oracle, n, pos, q, Some(f)) == BatchFault)
        && (b.queries <= f ==> GenerateTokens(s, cid, oracle, n, pos, q, Some(f)) == b)
    ensures var b := GenerateTokens(s, cid, oracle, n, pos, q, None);
      b.BatchOut? ==>
        && (q <= f < q + (|oracle| - pos) ==> GenerateTokens(s, cid, oracle, n, pos, q, Some(f)) == BatchFault)
        && (q + (|oracle| - pos) <= f ==> GenerateTokens(s, cid, oracle, n, pos, q, Some(f)) == BatchOut)
    decreases n
  {
    if n > 0 {
      DrawUniqueUnderFault(s, cid, oracle, pos, q, f);
      var d := DrawUnique(s, cid, oracle, pos, q, None);
      if d.Drawn? {
        GenerateTokensUnderFault(s, cid, oracle, n - 1, d.next, d.queries, f);
      }
    }
  }

  /** The `for` loop of the handler, which starts at query 2, under a fault schedule that
      spares `BEGIN` and the campaign insert: a fault at one of the checks the fault-free
      loop makes fails the loop, and any other fault leaves it as it is. */
  lemma GenerateTokensReached(s: Store, cid: nat, oracle: seq<Sample>, n: nat, fault: Option<nat>)
    requires !FaultIn(fault, 0, 2)
    ensures var b0 := GenerateTokens(s, cid, oracle, n, 0, 2, None);
      var b := GenerateTokens(s, cid, oracle, n, 0, 2, fault);
      var made := if b0.Tokens? then b0.queries else 2 + |oracle|;
      && (FaultIn(fault, 2, made) ==> b == BatchFault)
      && (!FaultIn(fault, 2, made) ==> b == b0)
  {
    if fault.Some? {
      GenerateTokensUnderFault(s, cid, oracle, n, 0, 2, fault.value);
    }
  }

  /** The number of queries the call makes when none of them fails: none for a refused
      request; `BEGIN`, the campaign insert, one check per draw, the bulk insert and
      `COMMIT` when the loop completes; `BEGIN`, the insert and a check of every draw
      when the draws run out. */
  function QueriesMade(req: CampaignRequest, s: Store, oracle: seq<Sample>): nat {
    if !IsValidRequest(req) then 0
    else
      match GenerateTokens(s, NextCampaignId(s), oracle, LoopCount(req.maxCodes.value), 0, 2, None)
      case Tokens(_, _, q) => q + 2
      case _ => 2 + |oracle|
  }

  /** A fault at any query the call makes — `BEGIN`, the campaign insert, every check
      including retries, the bulk insert or `COMMIT` — rolls back and answers the server
      error. */
  lemma FailedQueryRollsBack(req: CampaignRequest, s: Store, oracle: seq<Sample>, now: Timestamp, f: nat)
    requires f < QueriesMade(req, s, oracle)
    ensures CreateCampaign(req, s, oracle, now, Some(f)) == (ServerError(TransactionMessage), s)
  {
  }

  /** A fault scheduled past the last query the call makes strikes nothing: the answer and
      the store are those of the call with no fault. */
  lemma UnreachedFaultChangesNothing(req: CampaignRequest, s: Store, oracle: seq<Sample>, now: Timestamp, f: nat)
    requires QueriesMade(req, s, oracle) <= f
    ensures CreateCampaign(req, s, oracle, now, Some(f)) == CreateCampaign(req, s, oracle, now, None)
  {
    if IsValidRequest(req) {
      GenerateTokensUnderFault(s, NextCampaignId(s), oracle, LoopCount(req.maxCodes.value), 0, 2, f);
    }
  }

  /** A 201 under a fault schedule is the answer and store of the call in which every
      query succeeds: the scheduled fault struck none of the queries the call made. */
  lemma CreatedIsFaultFree(req: CampaignRequest, s: Store, oracle: seq<Sample>, now: Timestamp, fault: Option<nat>)
    ensures var res := CreateCampaign(req, s, oracle, now, fault);
      res.0.Created? ==> CreateCampaign(req, s, oracle, now, None) == res
  {
    if IsValidRequest(req) {
      GenerateTokensFaultFree(s, NextCampaignId(s), oracle, LoopCount(req.maxCodes.value), 0, 2, fault);
    }
  }

  /** With no committed row for `cid` and no fault, every check misses, so the batch is
      exactly the next `n` draws, one each. */
  lemma {:induction false} GenerateTokensFirstDraws(s: Store, cid: nat, oracle: seq<Sample>, n: nat, pos: nat, q: nat)
    requires pos + n <= |oracle|
    requires forall i :: 0 <= i < |s.codes| ==> s.codes[i].campaignId != cid
    ensures GenerateTokens(s, cid, oracle, n, pos, q, None)
         == Tokens(seq(n, i requires 0 <= i < n => Token(oracle[pos + i])), pos + n, q + n)
    decreases n
  {
    if n > 0 {
      assert !CodeExists(s, Token(oracle[pos]), cid);
      assert DrawUnique(s, cid, oracle, pos, q, None) == Drawn(Token(oracle[pos]), pos + 1, q + 1);
      GenerateTokensFirstDraws(s, cid, oracle, n - 1, pos + 1, q + 1);
      var rest := seq(n - 1, i requires 0 <= i < n - 1 => Token(oracle[pos + 1 + i]));
      assert [Token(oracle[pos])] + rest == seq(n, i requires 0 <= i < n => Token(oracle[pos + i]));
    }
  }

  /** A valid request on a store that keeps its foreign key, with no fault and enough
      draws, succeeds; its codes carry the first `maxCodes` draws in order. */
  lemma CreateCampaignSucceeds(req: CampaignRequest, s: Store, oracle: seq<Sample>, now: Timestamp)
    requires IsValidRequest(req) && ReferencesValid(s)
    requires LoopCount(req.maxCodes.value) <= |oracle|
    ensures var res := CreateCampaign(req, s, oracle, now, None);
      && res.0.Created?
      && res.0.codesGenerated == LoopCount(req.maxCodes.value)
      && forall i :: 0 <= i < res.0.codesGenerated ==> res.1.codes[|s.codes| + i].uniqueCode == Token(oracle[i])
  {
    NoRowsForFreshCampaign(s);
    GenerateTokensFirstDraws(s, NextCampaignId(s), oracle, LoopCount(req.maxCodes.value), 0, 2);
  }

  /** The cap is inclusive: 25000 codes are generated, 25001 are refused. */
  lemma MaxCodesBoundary(req: CampaignRequest, s: Store, oracle: seq<Sample>, now: Timestamp, fault: Option<nat>)
    requires HasRequiredFields(req) && ReferencesValid(s)
    requires |oracle| >= MaxCodesLimit
    ensures req.maxCodes.value == MaxCodesLimit ==>
      CreateCampaign(req, s, oracle, now, None).0 == Created(NextCampaignId(s), req.name.value, MaxCodesLimit)
    ensures req.maxCodes.value == MaxCodesLimit + 1 ==>
      CreateCampaign(req, s, oracle, now, fault) == (BadRequest(TooManyCodesMessage), s)
  {
    if req.maxCodes.value == MaxCodesLimit {
      CreateCampaignSucceeds(req, s, oracle, now);
    }
  }

  /** A negative `maxCodes` is truthy and below the cap: the campaign is created with no codes. */
  lemma NegativeMaxCodesMakesEmptyCampaign(req: CampaignRequest, s: Store, oracle: seq<Sample>, now: Timestamp)
    requires HasRequiredFields(req) && req.maxCodes.value < 0
    ensures var res := CreateCampaign(req, s, oracle, now, None);
      res.0.Created? && res.0.codesGenerated == 0 && res.1.codes == s.codes
      && |res.1.campaigns| == |s.campaigns| + 1
  {
  }

  /** The uniqueness check reads committed rows only, so two equal draws in one batch give
      two rows of the same campaign with the same token. */
  lemma BatchMayRepeatToken(now: Timestamp)
    ensures var req := CampaignRequest(Some("c"), Some("2024-01-01"), None, Some(1.0), Some(1.0), Some(2));
      var res := CreateCampaign(req, Store([], []), [7, 7], now, None);
      && res.0.Created?
      && |res.1.codes| == 2
      && res.1.codes[0].campaignId == res.1.codes[1].campaignId
      && res.1.codes[0].uniqueCode == res.1.codes[1].uniqueCode
  {
    var req := CampaignRequest(Some("c"), Some("2024-01-01"), None, Some(1.0), Some(1.0), Some(2));
    CreateCampaignSucceeds(req, Store([], []), [7, 7], now);
  }

  /** The `do { draw } while (await checkUniqueCodeExists(...))` loop as written. */
  method DrawOne(s: Store, cid: nat, oracle: seq<Sample>, pos0: nat, q0: nat, fault: Option<nat>)
    returns (d: Draw)
    requires pos0 <= |oracle|
    ensures d == DrawUnique(s, cid, oracle, pos0, q0, fault)
  {
    var pos, q := pos0, q0;
    while true
      invariant pos0 <= pos <= |oracle|
      invariant DrawUnique(s, cid, oracle, pos0, q0, fault) == DrawUnique(s, cid, oracle, pos, q, fault)
      decreases |oracle| - pos
    {
      if pos == |oracle| {
        return DrawOut;
      }
      if fault == Some(q) {
        return DrawFault;
      }
      var token := Token(oracle[pos]);
      var found := CheckUniqueCodeExists(s, token, cid);
      if !found {
        return Drawn(token, pos + 1, q + 1);
      }
      pos, q := pos + 1, q + 1;
    }
  }

  /** One turn of the `for` loop: a failed draw ends the batch, a drawn token joins the
      buffered ones ahead of the rest. */
  lemma GenerateTokensStep(s: Store, cid: nat, oracle: seq<Sample>, codes: seq<string>, m: nat, pos: nat, q: nat,
                           fault: Option<nat>, d: Draw)
    requires m > 0 && pos <= |oracle|
    requires d == DrawUnique(s, cid, oracle, pos, q, fault)
    ensures d.DrawOut? ==> Prepend(codes, GenerateTokens(s, cid, oracle, m, pos, q, fault)) == BatchOut
    ensures d.DrawFault? ==> Prepend(codes, GenerateTokens(s, cid, oracle, m, pos, q, fault)) == BatchFault
    ensures d.Drawn? ==> d.next <= |oracle|
    ensures d.Drawn? ==>
      Prepend(codes, GenerateTokens(s, cid, oracle, m, pos, q, fault))
        == Prepend(codes + [d.token], GenerateTokens(s, cid, oracle, m - 1, d.next, d.queries, fault))
  {
    if d.Drawn? {
      PrependConcat(codes, [d.token], GenerateTokens(s, cid, oracle, m - 1, d.next, d.queries, fault));
    }
  }

  /** One turn of the `for` loop with `m` turns left and `codes` buffered: the retry loop
      for the next code, and where the batch stands after it. */
  method Turn(s: Store, cid: nat, oracle: seq<Sample>, codes: seq<string>, ghost m: nat, pos: nat, q: nat,
              fault: Option<nat>) returns (d: Draw)
    requires m > 0 && pos <= |oracle|
    ensures d.DrawOut? ==> Prepend(codes, GenerateTokens(s, cid, oracle, m, pos, q, fault)) == BatchOut
    ensures d.DrawFault? ==> Prepend(codes, GenerateTokens(s, cid, oracle, m, pos, q, fault)) == BatchFault
    ensures d.Drawn? ==> d.next <= |oracle|
    ensures d.Drawn? ==>
      Prepend(codes, GenerateTokens(s, cid, oracle, m, pos, q, fault))
        == Prepend(codes + [d.token], GenerateTokens(s, cid, oracle, m - 1, d.next, d.queries, fault))
  {
    d := DrawOne(s, cid, oracle, pos, q, fault);
    GenerateTokensStep(s, cid, oracle, codes, m, pos, q, fault, d);
  }

  /** A loop with no turns left leaves the buffered tokens as the batch. */
  lemma PrependDone(s: Store, cid: nat, oracle: seq<Sample>, codes: seq<string>, pos: nat, q: nat, fault: Option<nat>)
    requires pos <= |oracle|
    ensures Prepend(codes, GenerateTokens(s, cid, oracle, 0, pos, q, fault)) == Tokens(codes, pos, q)
  {
    assert codes + [] == codes;
  }

  /** The `for (let i = 0; i < maxCodes; i++)` loop as written, buffering tokens into
      `codes`; it turns `LoopCount(maxCodes)` times and computes exactly the batch
      `GenerateTokens` describes for that many codes. */
  method GenerateCodes(s: Store, cid: nat, oracle: seq<Sample>, maxCodes: int, q0: nat, fault: Option<nat>)
    returns (b: Batch)
    ensures b == GenerateTokens(s, cid, oracle, LoopCount(maxCodes), 0, q0, fault)
  {
    var codes: seq<string> := [];
    var pos: nat := 0;
    var q: nat := q0;
    var i := 0;
    ghost var left: nat := LoopCount(maxCodes);
    ghost var whole := GenerateTokens(s, cid, oracle, left, 0, q0, fault);
    PrependEmpty(whole);
    while i < maxCodes
      invariant 0 <= i && pos <= |oracle|
      invariant i + left == LoopCount(maxCodes)
      invariant whole == Prepend(codes, GenerateTokens(s, cid, oracle, left, pos, q, fault))
    {
      var d := Turn(s, cid, oracle, codes, left, pos, q, fault);
      if !d.Drawn? {
        return if d.DrawOut? then BatchOut else BatchFault;
      }
      codes := codes + [d.token];
      pos, q := d.next, d.queries;
      i, left := i + 1, left - 1;
    }
    assert left == 0;
    PrependDone(s, cid, oracle, codes, pos, q, fault);
    b := Tokens(codes, pos, q);
  }
}
