/** The negative-stock policy of each tenant and the audit log of its changes. */
module NegativePolicy {
  import opened Results

  type Uuid = nat

  datatype Mode = Strict | Allow | Warning | Approval

  datatype PolicyError =
    | DirectAccessDenied | CrossTenantPolicyDenied | PermissionDenied | PolicyUnchanged | ReasonRequired

  /** The security context of a call. */
  datatype Context = Context(user: Uuid, tenant: Uuid, mayConfigure: bool, platformAdmin: bool)

  datatype Audit = Audit(tenant: Uuid, before: Mode, after: Mode, operator: Uuid, reason: string)

  datatype Db = Db(policies: map<Uuid, string>, audits: seq<Audit>)

  datatype Op =
    | Change(ctx: Option<Context>, tenant: Uuid, mode: Mode, reason: string)
    | Initialize(tenant: Uuid)

  function ToInventory(m: Mode): string {
    match m
    case Strict => "global_forbid"
    case Allow => "global_allow"
    case Warning => "by_business"
    case Approval => "require_approval"
  }

  /** Unknown inventory modes read as strict, and two inventory modes read as warning. */
  function FromInventory(s: string): Mode {
    if s == "global_forbid" then Strict
    else if s == "global_allow" then Allow
    else if s == "by_business" then Warning
    else if s == "by_warehouse" then Warning
    else if s == "require_approval" then Approval
    else Strict
  }

  function Current(db: Db, t: Uuid): Mode {
    if t in db.policies then FromInventory(db.policies[t]) else Strict
  }

  predicate IsSpace(c: char) {
    '\t' <= c <= '\r' || '\U{001C}' <= c <= ' ' || c == '\U{0085}' || c == '\U{00A0}' || c == '\U{1680}'
    || '\U{2000}' <= c <= '\U{200A}' || c == '\U{2028}' || c == '\U{2029}' || c == '\U{202F}' || c == '\U{205F}'
    || c == '\U{3000}'
  }

  predicate Blank(reason: string) {
    forall i :: 0 <= i < |reason| ==> IsSpace(reason[i])
  }

  /** `change_policy_with_audit`: the permission, then the audit record. */
  function AuditFor(ctx: Context, tenant: Uuid, before: Mode, after: Mode, reason: string): Result<Audit, PolicyError> {
    if ctx.tenant != tenant then Err(CrossTenantPolicyDenied)
    else if !ctx.mayConfigure then Err(PermissionDenied)
    else if before == after then Err(PolicyUnchanged)
    else if Blank(reason) then Err(ReasonRequired)
    else Ok(Audit(tenant, before, after, ctx.user, reason))
  }

  function Do(db: Db, op: Op): Result<Db, PolicyError> {
    match op
    case Change(ctx, tenant, mode, reason) =>
      if ctx.None? then Err(DirectAccessDenied)
      else
        var audit :- AuditFor(ctx.value, tenant, Current(db, tenant), mode, reason);
        Ok(Db(db.policies[tenant := ToInventory(mode)], db.audits + [audit]))
    case Initialize(tenant) =>
      Ok(if tenant in db.policies then db else db.(policies := db.policies[tenant := ToInventory(Strict)]))
  }

  function Apply(db: Db, op: Op): Db {
    match Do(db, op)
    case Ok(next) => next
    case Err(_) => db
  }

  function Run(db: Db, ops: seq<Op>): Db
    decreases |ops|
  {
    if ops == [] then db else Run(Apply(db, ops[0]), ops[1..])
  }

  // ---------- the mode maps ----------

  /** Writing a mode and reading it back is the identity. */
  lemma {:induction false} ModesRoundTrip(m: Mode)
    ensures FromInventory(ToInventory(m)) == m
  {
  }

  /** What each inventory mode means, unknown ones included. */
  lemma {:induction false} ModesAreRead(s: string)
    ensures FromInventory(s) == Allow <==> s == "global_allow"
    ensures FromInventory(s) == Warning <==> s in {"by_business", "by_warehouse"}
    ensures FromInventory(s) == Approval <==> s == "require_approval"
    ensures FromInventory(s) == Strict <==> s !in {"global_allow", "by_business", "by_warehouse", "require_approval"}
  {
  }

  /** What an accepted change stores. */
  lemma {:induction false} ModesAreStored(db: Db, op: Op)
    requires op.Change? && Do(db, op).Ok?
    ensures Do(db, op).value.policies == db.policies[op.tenant :=
              if op.mode == Strict then "global_forbid"
              else if op.mode == Allow then "global_allow"
              else if op.mode == Warning then "by_business"
              else "require_approval"]
  {
  }

  /** The characters that do not make a reason. */
  lemma {:induction false} SpacesAreListed(c: char)
    ensures IsSpace(c) <==> c in SPACES
  {
  }

  const SPACES: set<char> :=
    {'\t', '\n', '\U{000B}', '\U{000C}', '\r', '\U{001C}', '\U{001D}', '\U{001E}', '\U{001F}', ' ', '\U{0085}',
     '\U{00A0}', '\U{1680}', '\U{2000}', '\U{2001}', '\U{2002}', '\U{2003}', '\U{2004}', '\U{2005}', '\U{2006}',
     '\U{2007}', '\U{2008}', '\U{2009}', '\U{200A}', '\U{2028}', '\U{2029}', '\U{202F}', '\U{205F}', '\U{3000}'}

  // ---------- the log replays to the policy ----------

  function AuditsOf(audits: seq<Audit>, t: Uuid): seq<Audit>
    decreases |audits|
  {
    if audits == [] then []
    else (if audits[0].tenant == t then [audits[0]] else []) + AuditsOf(audits[1..], t)
  }

  /** The records lead from one mode to another, each starting where the one before ended, and none
      of them changes nothing. */
  predicate Chain(from: Mode, audits: seq<Audit>, to: Mode)
    decreases |audits|
  {
    if audits == [] then from == to
    else audits[0].before == from && audits[0].after != from && Chain(audits[0].after, audits[1..], to)
  }

  lemma {:induction false} AuditsOfConcat(a: seq<Audit>, b: seq<Audit>, t: Uuid)
    ensures AuditsOf(a + b, t) == AuditsOf(a, t) + AuditsOf(b, t)
  {
    if a == [] {
      assert a + b == b;
    } else {
      assert (a + b)[1..] == a[1..] + b;
      AuditsOfConcat(a[1..], b, t);
    }
  }

  lemma {:induction false} ChainConcat(from: Mode, a: seq<Audit>, mid: Mode, b: seq<Audit>, to: Mode)
    requires Chain(from, a, mid) && Chain(mid, b, to)
    ensures Chain(from, a + b, to)
    decreases |a|
  {
    if a == [] {
      assert a + b == b;
    } else {
      assert (a + b)[1..] == a[1..] + b;
      ChainConcat(a[0].after, a[1..], mid, b, to);
    }
  }

  /** What one call adds to the log leads from the tenant's policy before to its policy after. */
  lemma {:induction false} CallChains(db: Db, op: Op, t: Uuid)
    ensures db.audits <= Apply(db, op).audits
    ensures Chain(Current(db, t), AuditsOf(Apply(db, op).audits[|db.audits|..], t), Current(Apply(db, op), t))
  {
  }

  /** Over every run, whatever row a tenant starts with: the log is only appended to, and the tenant's
      new records lead without gaps and without no-ops from its first policy to its current one. */
  lemma {:induction false} LogReplaysToPolicy(db: Db, ops: seq<Op>, t: Uuid)
    ensures db.audits <= Run(db, ops).audits
    ensures Chain(Current(db, t), AuditsOf(Run(db, ops).audits[|db.audits|..], t), Current(Run(db, ops), t))
    decreases |ops|
  {
    if ops != [] {
      var mid := Apply(db, ops[0]);
      var end := Run(db, ops);
      CallChains(db, ops[0], t);
      LogReplaysToPolicy(mid, ops[1..], t);
      var a, b := mid.audits[|db.audits|..], end.audits[|mid.audits|..];
      assert end.audits[|db.audits|..] == a + b;
      AuditsOfConcat(a, b, t);
      ChainConcat(Current(db, t), AuditsOf(a, t), Current(mid, t), AuditsOf(b, t), Current(end, t));
    } else {
      assert db.audits[|db.audits|..] == [];
    }
  }

  /** A tenant without a policy row starts from strict, and its last record is its current policy. */
  lemma {:induction false} LogStartsStrictAndEndsCurrent(ops: seq<Op>, t: Uuid)
    ensures var db := Run(Db(map[], []), ops); var log := AuditsOf(db.audits, t);
      && Chain(Strict, log, Current(db, t))
      && (log != [] ==> log[0].before == Strict && log[|log| - 1].after == Current(db, t))
  {
    var start := Db(map[], []);
    LogReplaysToPolicy(start, ops, t);
    assert Run(start, ops).audits[0..] == Run(start, ops).audits;
    ChainEnds(Strict, AuditsOf(Run(start, ops).audits, t), Current(Run(start, ops), t));
  }

  lemma {:induction false} ChainEnds(from: Mode, audits: seq<Audit>, to: Mode)
    requires Chain(from, audits, to)
    ensures audits == [] ==> from == to
    ensures audits != [] ==> audits[0].before == from && audits[|audits| - 1].after == to
    decreases |audits|
  {
    if |audits| > 1 {
      ChainEnds(audits[0].after, audits[1..], to);
    } else if |audits| == 1 {
      assert audits[1..] == [];
    }
  }

  /** A caller from another tenant, or without the permission, changes neither policy nor log. */
  lemma {:induction false} ForeignCallsChangeNothing(db: Db, op: Op, t: Uuid)
    requires op.Change? && (op.ctx.None? || op.ctx.value.tenant != t || !op.ctx.value.mayConfigure)
    ensures Current(Apply(db, op), t) == Current(db, t)
    ensures AuditsOf(Apply(db, op).audits, t) == AuditsOf(db.audits, t)
  {
    if Do(db, op).Ok? {
      var audit := AuditFor(op.ctx.value, op.tenant, Current(db, op.tenant), op.mode, op.reason).value;
      AuditsOfConcat(db.audits, [audit], t);
      assert [audit][1..] == [];
    }
  }

  /** The call that a record stands for: permitted, by its operator, with a reason that says something. */
  predicate Explains(op: Op, a: Audit) {
    && op.Change? && op.ctx.Some? && op.tenant == a.tenant && op.mode == a.after && op.reason == a.reason
    && op.ctx.value.user == a.operator && op.ctx.value.tenant == a.tenant && op.ctx.value.mayConfigure
    && exists i :: 0 <= i < |a.reason| && !IsSpace(a.reason[i])
  }

  /** Over every run each record stands for one of the calls. */
  lemma {:induction false} EveryRecordHasItsCall(db: Db, ops: seq<Op>, k: nat)
    requires |db.audits| <= k < |Run(db, ops).audits|
    ensures exists i :: 0 <= i < |ops| && Explains(ops[i], Run(db, ops).audits[k])
    decreases |ops|
  {
    if ops != [] {
      var mid := Apply(db, ops[0]);
      CallChains(db, ops[0], 0);
      LogReplaysToPolicy(mid, ops[1..], 0);
      if k < |mid.audits| {
        assert Run(db, ops).audits[k] == mid.audits[k];
        assert Explains(ops[0], mid.audits[k]);
      } else {
        EveryRecordHasItsCall(mid, ops[1..], k);
        var i :| 0 <= i < |ops[1..]| && Explains(ops[1..][i], Run(db, ops).audits[k]);
        assert Explains(ops[i + 1], Run(db, ops).audits[k]);
      }
    }
  }

  /** A change is accepted exactly for a permitted caller of the tenant, a new mode and a reason. */
  lemma {:induction false} ChangeAcceptedIff(db: Db, ctx: Option<Context>, tenant: Uuid, mode: Mode, reason: string)
    ensures Do(db, Change(ctx, tenant, mode, reason)).Ok? <==>
      && ctx.Some? && ctx.value.tenant == tenant && ctx.value.mayConfigure && mode != Current(db, tenant)
      && exists i :: 0 <= i < |reason| && !IsSpace(reason[i])
  {
  }

  // ---------- the service ----------

  class NegativePolicyAppSvc {
    var policies: map<Uuid, string>
    var audits: seq<Audit>

    constructor ()
      ensures Model() == Db(map[], [])
    {
      policies, audits := map[], [];
    }

    function Model(): Db
      reads this
    {
      Db(policies, audits)
    }

    method GetCurrentPolicy(ctx: Option<Context>, tenant: Uuid) returns (r: Result<Mode, PolicyError>)
      ensures r.Ok? <==> ctx.Some? && (ctx.value.tenant == tenant || ctx.value.platformAdmin)
      ensures r.Ok? ==> r.value == Current(Model(), tenant)
      ensures r.Err? ==> r.error == if ctx.None? then DirectAccessDenied else CrossTenantPolicyDenied
    {
      if ctx.None? {
        return Err(DirectAccessDenied);
      }
      if ctx.value.tenant != tenant && !ctx.value.platformAdmin {
        return Err(CrossTenantPolicyDenied);
      }
      if tenant !in policies {
        return Ok(Strict);
      }
      return Ok(FromInventory(policies[tenant]));
    }

    /** The row is written first; a refusal afterwards rolls the session back. */
    method ChangePolicy(ctx: Option<Context>, tenant: Uuid, mode: Mode, reason: string)
      returns (r: Result<Audit, PolicyError>)
      modifies this
      ensures match Do(old(Model()), Change(ctx, tenant, mode, reason))
              case Ok(next) => r.Ok? && Model() == next && audits == old(audits) + [r.value]
              case Err(e) => r == Err(e) && Model() == old(Model())
    {
      if ctx.None? {
        return Err(DirectAccessDenied);
      }
      var rows := policies;
      var before := if tenant in policies then FromInventory(policies[tenant]) else Strict;
      policies := policies[tenant := ToInventory(mode)];
      r := AuditFor(ctx.value, tenant, before, mode, reason);
      if r.Err? {
        policies := rows;
        return;
      }
      audits := audits + [r.value];
    }

    method InitializeDefaultPolicy(tenant: Uuid)
      modifies this`policies
      ensures Model() == Apply(old(Model()), Initialize(tenant))
      ensures Current(Model(), tenant) == Current(old(Model()), tenant)
    {
      if tenant in policies {
        return;
      }
      ModesRoundTrip(Strict);
      policies := policies[tenant := ToInventory(Strict)];
    }
  }
}
