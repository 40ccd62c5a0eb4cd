/**
 Execution authority for agent actions: a session ceiling is narrowed to a grant
 for one resolved invocation, an exact approval is checked against it, and the
 approval is claimed once. `hash` stands for SHA-256 in hexadecimal.
 */
module AgentAuthorization {
  import opened Common
  import opened CanonicalJson

  const CANONICALIZATION_VERSION := "kubemetal-json-c14n/v1"
  const NORMALIZED_INVOCATION_VERSION := "v1"
  datatype RiskLevel = L0Query | L1Diagnostic | L2ProposedAction | L3ApprovedAction

  datatype Session = Session(
    grantId: string,
    agentIdentity: string,
    sessionId: string,
    policyVersion: string,
    allowedTools: seq<string>,
    allowedTargetPrefixes: seq<string>,
    issuedAt: U64,
    expiresAt: U64)

  datatype Invocation = Invocation(
    resolutionId: string,
    agentIdentity: string,
    sessionId: string,
    policyVersion: string,
    tool: string,
    toolContractVersion: string,
    resolvedTarget: string,
    arguments: Json,
    canonicalizationVersion: string,
    normalizedInvocationVersion: string,
    digest: string)

  datatype Grant = Grant(
    grantId: string,
    parentGrantId: string,
    resolutionId: string,
    digest: string,
    agentIdentity: string,
    sessionId: string,
    policyVersion: string,
    tool: string,
    toolContractVersion: string,
    resolvedTarget: string,
    riskLevel: RiskLevel,
    issuedAt: U64,
    expiresAt: U64)

  datatype Approval = Approval(
    approvalId: string,
    grantId: string,
    resolutionId: string,
    digest: string,
    approver: string,
    approvedAt: U64,
    expiresAt: U64)

  // ---- resolving an invocation ----

  /** The characters `str::trim` removes: Unicode White_Space. */
  predicate IsWhiteSpace(c: char) {
    var n := c as int;
    9 <= n <= 13 || n == 0x20 || n == 0x85 || n == 0xA0 || n == 0x1680 || 0x2000 <= n <= 0x200A
    || n == 0x2028 || n == 0x2029 || n == 0x202F || n == 0x205F || n == 0x3000
  }

  predicate IsBlank(s: string) {
    forall i :: 0 <= i < |s| ==> IsWhiteSpace(s[i])
  }

  /** The object whose canonical text is hashed. */
  function DigestInput(agentIdentity: string, sessionId: string, policyVersion: string, tool: string,
                       toolContractVersion: string, resolvedTarget: string, arguments: Json): Json {
    Obj(map[
          "agent_identity" := Str(agentIdentity),
          "session_id" := Str(sessionId),
          "policy_version" := Str(policyVersion),
          "tool" := Str(tool),
          "tool_contract_version" := Str(toolContractVersion),
          "resolved_target" := Str(resolvedTarget),
          "normalized_resolved_arguments" := arguments,
          "canonicalization_version" := Str(CANONICALIZATION_VERSION),
          "normalized_invocation_version" := Str(NORMALIZED_INVOCATION_VERSION)
        ])
  }

  function Resolve(hash: string -> string, resolutionId: string, agentIdentity: string, sessionId: string,
                   policyVersion: string, tool: string, toolContractVersion: string, resolvedTarget: string,
                   arguments: Json): (r: Result<Invocation>)
  {
    if IsBlank(resolutionId) then Err("resolution_id is required")
    else if IsBlank(agentIdentity) then Err("agent_identity is required")
    else if IsBlank(sessionId) then Err("session_id is required")
    else if IsBlank(policyVersion) then Err("policy_version is required")
    else if IsBlank(tool) then Err("tool is required")
    else if IsBlank(toolContractVersion) then Err("tool_contract_version is required")
    else if IsBlank(resolvedTarget) then Err("resolved_target is required")
    else
      var input := DigestInput(agentIdentity, sessionId, policyVersion, tool, toolContractVersion, resolvedTarget,
                               arguments);
      Ok(Invocation(resolutionId, agentIdentity, sessionId, policyVersion, tool, toolContractVersion,
                    resolvedTarget, arguments, CANONICALIZATION_VERSION, NORMALIZED_INVOCATION_VERSION,
                    "sha256:" + hash(Canonical(input))))
  }

  /** What `Resolve` can have built, whoever called it. */
  ghost predicate Resolved(hash: string -> string, i: Invocation) {
    Resolve(hash, i.resolutionId, i.agentIdentity, i.sessionId, i.policyVersion, i.tool, i.toolContractVersion,
            i.resolvedTarget, i.arguments) == Ok(i)
  }

  ghost predicate CollisionFree(hash: string -> string) {
    forall a, b :: hash(a) == hash(b) ==> a == b
  }

  // ---- granting and approving ----

  function SessionAllows(session: Session, invocation: Invocation, now: U64): Result<()> {
    if now < session.issuedAt || now >= session.expiresAt then Err("session-grant-expired")
    else if session.agentIdentity != invocation.agentIdentity || session.sessionId != invocation.sessionId
            || session.policyVersion != invocation.policyVersion then Err("session-binding-mismatch")
    else if invocation.tool !in session.allowedTools then Err("tool-outside-session-authority")
    else if !exists i :: 0 <= i < |session.allowedTargetPrefixes|
                         && session.allowedTargetPrefixes[i] <= invocation.resolvedTarget
    then Err("target-outside-session-authority")
    else Ok(())
  }

  function IssueGrant(grantId: string, session: Session, invocation: Invocation, riskLevel: RiskLevel, now: U64,
                      ttlSeconds: U64): Result<Grant> {
    match SessionAllows(session, invocation, now)
    case Err(e) => Err(e)
    case Ok(_) =>
      if riskLevel == L2ProposedAction then Err("proposal-only-no-execution-grant")
      else if ttlSeconds == 0 then Err("invocation-grant-ttl-required")
      else
        var requested := Saturated(now + ttlSeconds);
        var expiresAt := if requested < session.expiresAt then requested else session.expiresAt;
        if expiresAt <= now then Err("invocation-grant-expired")
        else Ok(Grant(grantId, session.grantId, invocation.resolutionId, invocation.digest,
                      invocation.agentIdentity, invocation.sessionId, invocation.policyVersion, invocation.tool,
                      invocation.toolContractVersion, invocation.resolvedTarget, riskLevel, now, expiresAt))
  }

  function ValidateApproval(grant: Grant, invocation: Invocation, approval: Option<Approval>, now: U64): Result<()> {
    if now < grant.issuedAt || now >= grant.expiresAt then Err("invocation-grant-expired")
    else if grant.resolutionId != invocation.resolutionId || grant.digest != invocation.digest
            || grant.agentIdentity != invocation.agentIdentity || grant.sessionId != invocation.sessionId
            || grant.tool != invocation.tool || grant.toolContractVersion != invocation.toolContractVersion
            || grant.resolvedTarget != invocation.resolvedTarget then Err("invocation-grant-mismatch")
    else if grant.riskLevel != L3ApprovedAction then Ok(())
    else if approval.None? then Err("approval-required")
    else
      var a := approval.value;
      if now < a.approvedAt || now >= a.expiresAt then Err("approval-expired")
      else if a.grantId != grant.grantId || a.resolutionId != invocation.resolutionId
              || a.digest != invocation.digest then Err("approval-invocation-mismatch")
      else Ok(())
  }

  predicate HasText(s: string) {
    exists i :: 0 <= i < |s| && !IsWhiteSpace(s[i])
  }

  /** An invocation is resolved exactly when each of the seven texts has a character that is not whitespace. */
  lemma ResolvedIff(hash: string -> string, resolutionId: string, agentIdentity: string, sessionId: string,
                    policyVersion: string, tool: string, toolContractVersion: string, resolvedTarget: string,
                    arguments: Json)
    ensures Resolve(hash, resolutionId, agentIdentity, sessionId, policyVersion, tool, toolContractVersion,
                    resolvedTarget, arguments).Ok?
       <==> && HasText(resolutionId) && HasText(agentIdentity) && HasText(sessionId) && HasText(policyVersion)
            && HasText(tool) && HasText(toolContractVersion) && HasText(resolvedTarget)
  {
    forall text
      ensures HasText(text) <==> !IsBlank(text)
    {
      hide IsWhiteSpace;
    }
    hide IsBlank, HasText, DigestInput, Canonical;
  }

  /**
   A grant is issued exactly inside the session's window, for its identity, session and policy, for a tool
   on its list and a target under one of its prefixes, for some time, and never for a proposal.
   */
  lemma GrantIssuedIff(grantId: string, session: Session, invocation: Invocation, riskLevel: RiskLevel, now: U64,
                       ttl: U64)
    ensures IssueGrant(grantId, session, invocation, riskLevel, now, ttl).Ok?
       <==> && session.issuedAt <= now < session.expiresAt
            && invocation.agentIdentity == session.agentIdentity
            && invocation.sessionId == session.sessionId
            && invocation.policyVersion == session.policyVersion
            && invocation.tool in session.allowedTools
            && (exists i :: 0 <= i < |session.allowedTargetPrefixes|
                            && session.allowedTargetPrefixes[i] <= invocation.resolvedTarget)
            && riskLevel != L2ProposedAction
            && ttl > 0
  {
  }

  /**
   It names its session and carries its risk level, and it lasts as long as was asked for, the session
   allows and the clock can tell.
   */
  lemma GrantLasts(grantId: string, session: Session, invocation: Invocation, riskLevel: RiskLevel, issueTime: U64,
                   ttl: U64, now: U64)
    requires IssueGrant(grantId, session, invocation, riskLevel, issueTime, ttl).Ok?
    ensures var grant := IssueGrant(grantId, session, invocation, riskLevel, issueTime, ttl).value;
            && (now < grant.expiresAt <==> now < issueTime + ttl && now < session.expiresAt && now < U64_MAX)
            && grant.issuedAt == issueTime && grant.riskLevel == riskLevel
            && grant.grantId == grantId && grant.parentGrantId == session.grantId
            && grant.policyVersion == session.policyVersion
  {
  }

  /** Without an approval only queries and diagnostics validate against an issued grant, and proposals never do. */
  lemma OnlyReadsUnapproved(grantId: string, session: Session, issued: Invocation, presented: Invocation,
                            riskLevel: RiskLevel, issueTime: U64, ttl: U64, approval: Option<Approval>, now: U64)
    requires IssueGrant(grantId, session, issued, riskLevel, issueTime, ttl).Ok?
    requires ValidateApproval(IssueGrant(grantId, session, issued, riskLevel, issueTime, ttl).value, presented,
                              approval, now).Ok?
    ensures riskLevel == L0Query || riskLevel == L1Diagnostic || (riskLevel == L3ApprovedAction && approval.Some?)
  {
  }

  /** The digest pins every hashed field, the arguments and the policy version among them. */
  lemma DigestPinsFields(hash: string -> string, i: Invocation, j: Invocation)
    requires CollisionFree(hash) && Resolved(hash, i) && Resolved(hash, j)
    requires i.digest == j.digest
    ensures i == j.(resolutionId := i.resolutionId)
  {
    ResolvedDigest(hash, i);
    ResolvedDigest(hash, j);
    hide *;
    assert i.digest[7..] == j.digest[7..];
    CanonicalInjective(InputOf(i), InputOf(j));
    InputPinsFields(i, j);
  }

  /** The object whose text the digest of an invocation is computed over. */
  function InputOf(i: Invocation): Json {
    DigestInput(i.agentIdentity, i.sessionId, i.policyVersion, i.tool, i.toolContractVersion, i.resolvedTarget,
                i.arguments)
  }

  lemma ResolvedDigest(hash: string -> string, i: Invocation)
    requires Resolved(hash, i)
    ensures |i.digest| >= 7 && i.digest[7..] == hash(Canonical(InputOf(i)))
    ensures i.digest == "sha256:" + hash(Canonical(InputOf(i)))
    ensures i.canonicalizationVersion == CANONICALIZATION_VERSION
    ensures i.normalizedInvocationVersion == NORMALIZED_INVOCATION_VERSION
  {
    hide Canonical;
  }

  lemma InputPinsFields(i: Invocation, j: Invocation)
    requires InputOf(i) == InputOf(j)
    ensures i.agentIdentity == j.agentIdentity && i.sessionId == j.sessionId && i.policyVersion == j.policyVersion
    ensures i.tool == j.tool && i.toolContractVersion == j.toolContractVersion
    ensures i.resolvedTarget == j.resolvedTarget && i.arguments == j.arguments
  {
    InputMembers(i);
    InputMembers(j);
    hide InputOf;
  }

  // ---- what is hashed ----

  /** The names of the hashed members, in order. */
  const HASHED := ["agent_identity", "canonicalization_version", "normalized_invocation_version",
                   "normalized_resolved_arguments", "policy_version", "resolved_target", "session_id", "tool",
                   "tool_contract_version"]

  lemma NamesInOrder()
    ensures Ascending(HASHED)
  {
    hide AtMost, Ascending;
    forall i | 0 <= i < |HASHED| - 1
      ensures NextIsLarger(HASHED, i)
    {
      Precedes(HASHED[i], HASHED[i + 1], if i == 2 then 11 else if i == 7 then 4 else 0);
    }
    NeighboursAscend(HASHED);
  }

  predicate IsNameChar(c: char) {
    'a' <= c <= 'z' || c == '_'
  }

  lemma NamePlain(name: string)
    requires forall c :: c in name ==> IsNameChar(c)
    ensures Escape(name) == name
  {
    assert forall i :: 0 <= i < |name| ==> name[i] in name;
    NothingToEscape(name);
  }

  lemma NamesPlain(j: nat)
    requires j < |HASHED|
    ensures Escape(HASHED[j]) == HASHED[j]
  {
    hide Escape;
    match j {
      case 0 => NamePlain("agent_identity");
      case 1 => NamePlain("canonicalization_version");
      case 2 => NamePlain("normalized_invocation_version");
      case 3 => NamePlain("normalized_resolved_arguments");
      case 4 => NamePlain("policy_version");
      case 5 => NamePlain("resolved_target");
      case 6 => NamePlain("session_id");
      case 7 => NamePlain("tool");
      case _ => NamePlain("tool_contract_version");
    }
  }

  lemma VersionsPlain()
    ensures Canonical(Str(CANONICALIZATION_VERSION)) == "\"kubemetal-json-c14n/v1\""
    ensures Canonical(Str(NORMALIZED_INVOCATION_VERSION)) == "\"v1\""
  {
    hide Canonical;
    PlainPrintedAsIs(CANONICALIZATION_VERSION);
    PlainPrintedAsIs(NORMALIZED_INVOCATION_VERSION);
  }

  /** The members of the hashed object, in order, each with the text of its value. */
  function HashedMembers(i: Invocation): (members: seq<(string, string)>)
    ensures |members| == |HASHED|
  {
    [("agent_identity", Quote(i.agentIdentity)),
     ("canonicalization_version", "\"kubemetal-json-c14n/v1\""),
     ("normalized_invocation_version", "\"v1\""),
     ("normalized_resolved_arguments", Canonical(i.arguments)),
     ("policy_version", Quote(i.policyVersion)),
     ("resolved_target", Quote(i.resolvedTarget)),
     ("session_id", Quote(i.sessionId)),
     ("tool", Quote(i.tool)),
     ("tool_contract_version", Quote(i.toolContractVersion))]
  }

  lemma InputNames(i: Invocation)
    ensures InputOf(i).Obj? && forall k :: k in InputOf(i).members <==> k in HASHED
  {
  }

  lemma InputMembers(i: Invocation)
    ensures InputOf(i).Obj?
    ensures var m := InputOf(i).members;
            && m["agent_identity"] == Str(i.agentIdentity)
            && m["canonicalization_version"] == Str(CANONICALIZATION_VERSION)
            && m["normalized_invocation_version"] == Str(NORMALIZED_INVOCATION_VERSION)
            && m["normalized_resolved_arguments"] == i.arguments
            && m["policy_version"] == Str(i.policyVersion)
            && m["resolved_target"] == Str(i.resolvedTarget)
            && m["session_id"] == Str(i.sessionId)
            && m["tool"] == Str(i.tool)
            && m["tool_contract_version"] == Str(i.toolContractVersion)
  {
  }

  lemma HashedValue(i: Invocation, j: nat)
    requires j < |HASHED| && InputOf(i).Obj? && HASHED[j] in InputOf(i).members
    ensures HashedMembers(i)[j] == (HASHED[j], Canonical(InputOf(i).members[HASHED[j]]))
  {
    VersionsPlain();
    InputMembers(i);
    hide InputOf, Quote;
    match j {
      case 0 | 1 | 2 => assert HASHED[j] == HashedMembers(i)[j].0;
      case 3 | 4 | 5 => assert HASHED[j] == HashedMembers(i)[j].0;
      case _ => assert HASHED[j] == HashedMembers(i)[j].0;
    }
  }

  lemma HashedAreMembers(i: Invocation)
    ensures InputOf(i).Obj? && AreMembers(InputOf(i), HashedMembers(i))
  {
    hide *;
    InputNames(i);
    var v := InputOf(i);
    NamesInOrder();
    HashedNames(v);
    forall j | 0 <= j < |HASHED|
      ensures HASHED[j] in v.members
      ensures HashedMembers(i)[j] == (HASHED[j], Canonical(v.members[HASHED[j]])) && Escape(HASHED[j]) == HASHED[j]
    {
      HashedValue(i, j);
      NamesPlain(j);
    }
    AllMembers(v, HashedMembers(i), HASHED);
  }

  lemma HashedNames(v: Json)
    requires v.Obj? && Ascending(HASHED) && forall k :: k in v.members <==> k in HASHED
    ensures SortedKeys(v.members.Keys) == HASHED
  {
    var names := HASHED;
    hide *;
    SortedOnce(v.members.Keys, names);
  }

  lemma AllMembers(v: Json, members: seq<(string, string)>, names: seq<string>)
    requires v.Obj? && names == SortedKeys(v.members.Keys) && |members| == |names|
    requires forall j :: 0 <= j < |names| ==>
               members[j] == (names[j], Canonical(v.members[names[j]])) && Escape(names[j]) == names[j]
    ensures AreMembers(v, members)
  {
    hide Canonical, Escape, SortedKeys;
  }

  /** The very text a digest is taken over. */
  lemma DigestText(hash: string -> string, i: Invocation)
    requires Resolved(hash, i)
    ensures i.digest == "sha256:" + hash("{" + MemberList(HashedMembers(i)) + "}")
  {
    ResolvedDigest(hash, i);
    hide *;
    HashedAreMembers(i);
    ObjectText(InputOf(i), HashedMembers(i));
  }

  lemma Precedes(a: string, b: string, n: nat)
    requires n <= |a| && n < |b| && a[..n] == b[..n] && (n == |a| || a[n] < b[n])
    ensures a != b && AtMost(a, b)
  {
    AtMostIff(a, b);
    if n == |a| {
      assert a[..n] == a;
    }
  }

  // ---- exact approval ----

  /**
   An approval check succeeds exactly when the presented invocation is, field for field, the one
   the grant was issued for, the time lies in the grant's window, and an L3 grant comes with an
   approval of that very grant and invocation in its own window.
   */
  lemma ApprovalIsExact(hash: string -> string, session: Session, issued: Invocation, presented: Invocation,
                        grantId: string, riskLevel: RiskLevel, issueTime: U64, ttl: U64,
                        approval: Option<Approval>, now: U64)
    requires CollisionFree(hash) && Resolved(hash, issued) && Resolved(hash, presented)
    requires IssueGrant(grantId, session, issued, riskLevel, issueTime, ttl).Ok?
    ensures var grant := IssueGrant(grantId, session, issued, riskLevel, issueTime, ttl).value;
            ValidateApproval(grant, presented, approval, now).Ok?
            <==> && presented == issued
                 && issueTime <= now < grant.expiresAt
                 && (riskLevel == L3ApprovedAction ==>
                       && approval.Some?
                       && approval.value.approvedAt <= now < approval.value.expiresAt
                       && approval.value.grantId == grantId
                       && approval.value.resolutionId == issued.resolutionId
                       && approval.value.digest == issued.digest)
  {
    hide Resolve;
    if issued.digest == presented.digest {
      DigestPinsFields(hash, issued, presented);
    }
  }

  // ---- claiming an approval once ----

  /** One call: what it answers and which approvals are consumed afterwards. */
  function Claim(consumed: set<string>, available: bool, grant: Grant, invocation: Invocation, approval: Approval,
                 now: U64): (Result<()>, set<string>)
  {
    match ValidateApproval(grant, invocation, Some(approval), now)
    case Err(e) => (Err(e), consumed)
    case Ok(_) =>
      if grant.riskLevel != L3ApprovedAction then (Err("l3-grant-required"), consumed)
      else if !available then (Err("approval-replay-store-unavailable"), consumed)
      else if approval.approvalId in consumed then (Err("approval-replayed"), consumed)
      else (Ok(()), consumed + {approval.approvalId})
  }

  class ExecutionReplayGuard {
    var consumed: set<string>
    /** Whether a thread has panicked while holding the lock. */
    var poisoned: bool

    constructor ()
      ensures consumed == {} && !poisoned
    {
      consumed, poisoned := {}, false;
    }

    method ClaimL3Execution(grant: Grant, invocation: Invocation, approval: Approval, now: U64)
      returns (r: Result<()>)
      modifies this`consumed
      ensures (r, consumed) == Claim(old(consumed), !poisoned, grant, invocation, approval, now)
    {
      var valid := ValidateApproval(grant, invocation, Some(approval), now);
      if valid.Err? {
        return valid;
      }
      if grant.riskLevel != L3ApprovedAction {
        return Err("l3-grant-required");
      }
      if poisoned {
        return Err("approval-replay-store-unavailable");
      }
      if approval.approvalId in consumed {
        return Err("approval-replayed");
      }
      consumed := consumed + {approval.approvalId};
      return Ok(());
    }
  }

  /** A claim call together with the issuing call its grant came from. */
  datatype Attempt = Attempt(
    session: Session,
    issued: Invocation,
    grantId: string,
    riskLevel: RiskLevel,
    issueTime: U64,
    ttl: U64,
    presented: Invocation,
    approval: Approval,
    now: U64,
    available: bool)
  {
    function Issue(): Result<Grant> {
      IssueGrant(grantId, session, issued, riskLevel, issueTime, ttl)
    }
  }

  function Answer(consumed: set<string>, a: Attempt): (Result<()>, set<string>)
    requires a.Issue().Ok?
  {
    Claim(consumed, a.available, a.Issue().value, a.presented, a.approval, a.now)
  }

  /** Consumed approvals before each call, and after the last one. */
  function History(start: set<string>, attempts: seq<Attempt>): (h: seq<set<string>>)
    requires forall i :: 0 <= i < |attempts| ==> attempts[i].Issue().Ok?
    ensures |h| == |attempts| + 1 && h[0] == start
    ensures forall i :: 0 <= i < |attempts| ==> h[i + 1] == Answer(h[i], attempts[i]).1
    decreases |attempts|
  {
    if attempts == [] then [start] else
      [start] + History(Answer(start, attempts[0]).1, attempts[1..])
  }

  ghost predicate Succeeds(start: set<string>, attempts: seq<Attempt>, i: nat)
    requires forall i :: 0 <= i < |attempts| ==> attempts[i].Issue().Ok?
    requires i < |attempts|
  {
    Answer(History(start, attempts)[i], attempts[i]).0.Ok?
  }

  /** The approvals consumed by the first n calls are exactly those of their successes. */
  lemma {:induction false} ConsumedBySuccesses(start: set<string>, attempts: seq<Attempt>, n: nat)
    requires forall i :: 0 <= i < |attempts| ==> attempts[i].Issue().Ok?
    requires n <= |attempts|
    ensures forall id :: id in History(start, attempts)[n] <==>
              || id in start
              || exists i :: 0 <= i < n && Succeeds(start, attempts, i) && attempts[i].approval.approvalId == id
  {
    if n > 0 {
      hide Claim, IssueGrant;
      var before := History(start, attempts)[n - 1];
      var last := attempts[n - 1];
      ConsumedBySuccesses(start, attempts, n - 1);
      AnswerConsumes(before, last);
      assert History(start, attempts)[n] == Answer(before, last).1;
      assert Succeeds(start, attempts, n - 1) <==> Answer(before, last).0.Ok?;
    }
  }

  lemma AnswerConsumes(consumed: set<string>, a: Attempt)
    requires a.Issue().Ok?
    ensures Answer(consumed, a).0.Ok? ==>
              && a.approval.approvalId !in consumed
              && Answer(consumed, a).1 == consumed + {a.approval.approvalId}
    ensures Answer(consumed, a).0.Err? ==> Answer(consumed, a).1 == consumed
    ensures Answer(consumed, a).0.Ok? <==>
              && ValidateApproval(a.Issue().value, a.presented, Some(a.approval), a.now).Ok?
              && a.riskLevel == L3ApprovedAction && a.available && a.approval.approvalId !in consumed
  {
  }

  /**
   Over any run a call succeeds exactly when its approval is valid for an L3 grant, the store is
   usable, and no earlier call succeeded with the same approval id: once per id, and a failed
   call never uses an approval up.
   */
  lemma SucceedsOncePerApproval(start: set<string>, attempts: seq<Attempt>, i: nat)
    requires forall i :: 0 <= i < |attempts| ==> attempts[i].Issue().Ok?
    requires i < |attempts|
    ensures var a := attempts[i];
            Succeeds(start, attempts, i) <==>
              && ValidateApproval(a.Issue().value, a.presented, Some(a.approval), a.now).Ok?
              && a.riskLevel == L3ApprovedAction && a.available
              && a.approval.approvalId !in start
              && forall j :: 0 <= j < i && Succeeds(start, attempts, j) ==>
                   attempts[j].approval.approvalId != a.approval.approvalId
  {
    hide Claim, IssueGrant, ValidateApproval;
    ConsumedBySuccesses(start, attempts, i);
    AnswerConsumes(History(start, attempts)[i], attempts[i]);
  }

  /**
   A success happens inside the parent session's window, with a tool and a target the session
   allows, for the invocation the grant was issued for, even where the expiry sum saturates.
   */
  lemma SuccessWithinSession(hash: string -> string, start: set<string>, attempts: seq<Attempt>, i: nat)
    requires forall i :: 0 <= i < |attempts| ==> attempts[i].Issue().Ok?
    requires i < |attempts| && Succeeds(start, attempts, i)
    ensures var a := attempts[i];
            && a.session.issuedAt <= a.issueTime <= a.now < a.session.expiresAt
            && a.now < a.issueTime + a.ttl
            && a.approval.approvedAt <= a.now < a.approval.expiresAt
            && a.presented.tool in a.session.allowedTools
            && (exists k :: 0 <= k < |a.session.allowedTargetPrefixes|
                            && a.session.allowedTargetPrefixes[k] <= a.presented.resolvedTarget)
            && a.presented.agentIdentity == a.session.agentIdentity
            && a.presented.sessionId == a.session.sessionId
    ensures CollisionFree(hash) && Resolved(hash, attempts[i].issued) && Resolved(hash, attempts[i].presented) ==>
              attempts[i].presented == attempts[i].issued
  {
    hide Resolve;
    var a := attempts[i];
    if CollisionFree(hash) && Resolved(hash, a.issued) && Resolved(hash, a.presented) {
      ApprovalIsExact(hash, a.session, a.issued, a.presented, a.grantId, a.riskLevel, a.issueTime, a.ttl,
                      Some(a.approval), a.now);
    }
  }
}
