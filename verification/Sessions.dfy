/**
  Sessions and second factors: login and refresh of cmd/api/auth.go, the MFA handlers of
  cmd/api/admin_mfa.go and cmd/api/admin_profile.go, and the token rows of cmd/api/db.go.

  Tokens are unforgeable, so a token is the number under which it was issued.  A handler that reads a
  user's row and acts on it later is two or more steps here, and any number of handlers run at once.
  */
module Sessions {
  import opened Shared

  datatype Kind = Access | Refresh | PasswordOnly

  /** Why a token was issued.  `check` is the index of a successful second-factor check. */
  datatype Origin =
    | ByPassword
    | ByFactor(check: nat)
    | ByRefresh(parent: int)
    | ByPasswordChange(parent: int)
    | ByImpersonation(admin: string)

  datatype Token = Token(kind: Kind, user: string, mfa: bool, origin: Origin)

  datatype Row = Row(user: string, expiresAt: int, revoked: bool)

  /** refresh_tokens */
  type Rows = map<int, Row>

  datatype User = User(isAdmin: bool, active: bool, mfaEnabled: bool, hasSecret: bool, codes: set<string>)

  // ----- the store's statements -----

  /** ConsumeRefreshToken's test on the locked row. */
  predicate Usable(rows: Rows, token: int, now: int) {
    token in rows && !rows[token].revoked && now <= rows[token].expiresAt
  }

  function Revoke(rows: Rows, token: int): Rows {
    if token in rows then rows[token := rows[token].(revoked := true)] else rows
  }

  function RevokeAll(rows: Rows, user: string): Rows {
    map t | t in rows :: if rows[t].user == user then rows[t].(revoked := true) else rows[t]
  }

  class TokenStore {
    var rows: Rows

    constructor ()
      ensures rows == map[]
    {
      rows := map[];
    }

    /** The insert fails when the row exists, and may fail for reasons outside the table. */
    method StoreRefreshToken(user: string, token: int, expiresAt: int, databaseFails: bool) returns (ok: bool)
      modifies this
      ensures ok <==> user != "" && token !in old(rows) && !databaseFails
      ensures rows == if ok then old(rows)[token := Row(user, expiresAt, false)] else old(rows)
    {
      if user == "" || token in rows || databaseFails {
        return false;
      }
      rows := rows[token := Row(user, expiresAt, false)];
      ok := true;
    }

    /** Of all calls for a token at most one succeeds: success needs an unrevoked row and revokes it. */
    method ConsumeRefreshToken(token: int, now: int) returns (user: Option<string>)
      modifies this
      ensures user.Some? <==> token in old(rows) && !old(rows)[token].revoked && now <= old(rows)[token].expiresAt
      ensures user.Some? ==> user.value == old(rows)[token].user && rows == old(rows)[token := old(rows)[token].(revoked := true)]
      ensures user.Some? <==> Usable(old(rows), token, now)
      ensures user.Some? ==> rows == Revoke(old(rows), token) && !Usable(rows, token, now)
      ensures user.None? ==> rows == old(rows)
    {
      if token !in rows {
        return None;
      }
      var row := rows[token];
      if row.revoked || now > row.expiresAt {
        return None;
      }
      rows := rows[token := row.(revoked := true)];
      user := Some(row.user);
    }

    method RevokeAllUserTokens(user: string)
      modifies this
      ensures rows == RevokeAll(old(rows), user)
      ensures rows.Keys == old(rows).Keys
      ensures forall t :: t in rows ==>
                && rows[t].user == old(rows)[t].user && rows[t].expiresAt == old(rows)[t].expiresAt
                && (rows[t].revoked <==> old(rows)[t].revoked || rows[t].user == user)
    {
      rows := map t | t in rows :: if rows[t].user == user then rows[t].(revoked := true) else rows[t];
    }
  }

  // ----- handlers as steps -----

  /** A handler between two of its accesses to the database, with what it has read. */
  datatype Op =
    | Refreshing(token: int, enabled: bool)         // refreshHandler has loaded the user
    | Rotating(token: int, mfa: bool)               // ... and consumed the old token
    | Verifying(user: string)                       // mfaVerifyHandler saw MFA enabled
    | Verified(user: string, check: nat)            // ... and the code was good
    | EnableChecked(user: string, check: nat)       // mfaEnableHandler: the code was good
    | EnableStored(user: string, check: nat)        // ... mfa_enabled is set
    | EnableRevoked(user: string, check: nat)       // ... and all sessions are revoked
    | Changing(bearer: int, enabled: bool)          // adminChangePasswordHandler stored the password
    | ChangeRevoked(bearer: int, enabled: bool)     // ... and revoked all sessions
    | Enrolling(user: string)                       // mfaEnrollHandler saw MFA disabled
    | Disabling(user: string)                       // adminMFADisableHandler passed its checks
    | Regenerating(user: string)                    // adminRegenerateRecoveryCodesHandler passed its checks

  datatype State = State(
    users: map<string, User>,
    tokens: map<int, Token>,              // every token ever issued
    issued: int,                          // tokens are numbered below this
    rows: Rows,
    ops: map<int, Op>,
    checks: seq<string>,                  // history: who passed a second factor, in order
    exchanged: seq<int>,                  // history: refresh tokens turned into new ones
    codesEver: set<string>,               // history: recovery-code hashes ever stored
    redeemed: seq<string>)                // history: recovery-code hashes redeemed

  datatype Step =
    | Register(user: string, expiresAt: int)
    | Login(user: string, expiresAt: int)
    | Impersonate(bearer: int, target: string)
    | VerifyLoad(op: int, token: int)
    | VerifyTOTP(op: int)
    | VerifyRecoveryCode(op: int, hash: string)
    | VerifyIssue(op: int, expiresAt: int)
    | EnrollLoad(op: int, bearer: int)
    | EnrollStore(op: int)
    | EnableCheck(op: int, bearer: int)
    | EnableStore(op: int)
    | EnableRevoke(op: int)
    | EnableIssue(op: int, expiresAt: int)
    | RefreshLoad(op: int, token: int)
    | RefreshConsume(op: int, now: int)
    | RefreshIssue(op: int, expiresAt: int)
    | ChangeLoad(op: int, bearer: int)
    | ChangeRevoke(op: int)
    | ChangeIssue(op: int, expiresAt: int)
    | DisableLoad(op: int, bearer: int)
    | DisableStore(op: int)
    | RegenerateLoad(op: int, bearer: int)
    | RegenerateStore(op: int, hashes: set<string>)
    | Logout(token: int, now: int)
    | RevokeUser(user: string)            // a user's sessions are revoked
    | SetUser(user: string, isAdmin: bool, active: bool)   // made administrator, suspended or restored
    | Cleanup(token: int)                 // an old row is deleted
    | Abandon(op: int)                    // a handler fails or its client goes away

  predicate Bearer(s: State, b: int) {
    b in s.tokens && s.tokens[b].kind == Access && s.tokens[b].user in s.users
  }

  predicate Enabled(s: State, step: Step) {
    match step
    case Register(u, _) => u !in s.users && u != ""
    case Login(u, _) => u in s.users && s.users[u].active
    case Impersonate(b, target) => AdminAdmits(s, b) && target in s.users
    case VerifyLoad(op, t) =>
      op !in s.ops && t in s.tokens && s.tokens[t].kind == PasswordOnly && s.tokens[t].user in s.users
      && s.users[s.tokens[t].user].mfaEnabled
    case VerifyTOTP(op) => op in s.ops && s.ops[op].Verifying?
    case VerifyRecoveryCode(op, h) => op in s.ops && s.ops[op].Verifying? && s.ops[op].user in s.users
    case VerifyIssue(op, _) => op in s.ops && s.ops[op].Verified?
    case EnrollLoad(op, b) =>
      op !in s.ops && Bearer(s, b) && s.users[s.tokens[b].user].isAdmin && !s.users[s.tokens[b].user].mfaEnabled
    case EnrollStore(op) => op in s.ops && s.ops[op].Enrolling? && s.ops[op].user in s.users
    case EnableCheck(op, b) => op !in s.ops && Bearer(s, b) && s.users[s.tokens[b].user].hasSecret
    case EnableStore(op) => op in s.ops && s.ops[op].EnableChecked? && s.ops[op].user in s.users
    case EnableRevoke(op) => op in s.ops && s.ops[op].EnableStored?
    case EnableIssue(op, _) => op in s.ops && s.ops[op].EnableRevoked?
    case RefreshLoad(op, t) =>
      op !in s.ops && t in s.tokens && s.tokens[t].kind == Refresh && s.tokens[t].user in s.users
    case RefreshConsume(op, now) => op in s.ops && s.ops[op].Refreshing?
    case RefreshIssue(op, _) => op in s.ops && s.ops[op].Rotating? && s.ops[op].token in s.tokens
    case ChangeLoad(op, b) => op !in s.ops && Bearer(s, b)
    case ChangeRevoke(op) => op in s.ops && s.ops[op].Changing? && s.ops[op].bearer in s.tokens
    case ChangeIssue(op, _) => op in s.ops && s.ops[op].ChangeRevoked? && s.ops[op].bearer in s.tokens
    case DisableLoad(op, b) =>
      op !in s.ops && Bearer(s, b) && s.users[s.tokens[b].user].mfaEnabled && s.tokens[b].mfa
    case DisableStore(op) => op in s.ops && s.ops[op].Disabling? && s.ops[op].user in s.users
    case RegenerateLoad(op, b) =>
      op !in s.ops && Bearer(s, b) && s.users[s.tokens[b].user].mfaEnabled && s.tokens[b].mfa
    case RegenerateStore(op, hashes) =>   // hashes of fresh random codes
      op in s.ops && s.ops[op].Regenerating? && s.ops[op].user in s.users && hashes !! s.codesEver
    case Logout(t, now) => t in s.tokens && s.tokens[t].kind == Refresh && Usable(s.rows, t, now)
    case RevokeUser(u) => true
    case SetUser(u, _, _) => u in s.users
    case Cleanup(t) => t in s.rows
    case Abandon(op) => op in s.ops
  }

  /** An access token and a stored refresh token for the same session. */
  function IssuePair(s: State, user: string, mfa: bool, origin: Origin, expiresAt: int): State {
    s.(tokens := s.tokens[s.issued := Token(Access, user, mfa, origin)]
                         [s.issued + 1 := Token(Refresh, user, mfa, origin)],
       issued := s.issued + 2,
       rows := s.rows[s.issued + 1 := Row(user, expiresAt, false)])
  }

  function IssueOne(s: State, kind: Kind, user: string, origin: Origin): State {
    s.(tokens := s.tokens[s.issued := Token(kind, user, false, origin)], issued := s.issued + 1)
  }

  function Set(s: State, op: int, to: Op): State {
    s.(ops := s.ops[op := to])
  }

  function Done(s: State, op: int): State {
    s.(ops := s.ops - {op})
  }

  function WithUser(s: State, u: string, user: User): State {
    s.(users := s.users[u := user])
  }

  function Apply(s: State, step: Step): State
    requires Enabled(s, step)
  {
    match step
    case Register(u, exp) =>
      IssuePair(WithUser(s, u, User(false, true, false, false, {})), u, false, ByPassword, exp)
    case Login(u, exp) =>
      if s.users[u].isAdmin && s.users[u].mfaEnabled then IssueOne(s, PasswordOnly, u, ByPassword)
      else IssuePair(s, u, false, ByPassword, exp)
    case Impersonate(b, target) => IssueOne(s, Access, target, ByImpersonation(s.tokens[b].user))
    case VerifyLoad(op, t) => Set(s, op, Verifying(s.tokens[t].user))
    case VerifyTOTP(op) => Set(s, op, Verified(s.ops[op].user, |s.checks|)).(checks := s.checks + [s.ops[op].user])
    case VerifyRecoveryCode(op, h) =>
      var u := s.ops[op].user;
      if h in s.users[u].codes then
        Set(WithUser(s, u, s.users[u].(codes := s.users[u].codes - {h})), op, Verified(u, |s.checks|)).(
          checks := s.checks + [u], redeemed := s.redeemed + [h])
      else Done(s, op)
    case VerifyIssue(op, exp) => Done(IssuePair(s, s.ops[op].user, true, ByFactor(s.ops[op].check), exp), op)
    case EnrollLoad(op, b) => Set(s, op, Enrolling(s.tokens[b].user))
    case EnrollStore(op) =>
      var u := s.ops[op].user;
      Done(WithUser(s, u, s.users[u].(hasSecret := true, mfaEnabled := false)), op)
    case EnableCheck(op, b) =>
      var u := s.tokens[b].user;
      Set(s, op, EnableChecked(u, |s.checks|)).(checks := s.checks + [u])
    case EnableStore(op) =>
      var o := s.ops[op];
      Set(WithUser(s, o.user, s.users[o.user].(mfaEnabled := true)), op, EnableStored(o.user, o.check))
    case EnableRevoke(op) =>
      var o := s.ops[op];
      Set(s, op, EnableRevoked(o.user, o.check)).(rows := RevokeAll(s.rows, o.user))
    case EnableIssue(op, exp) => Done(IssuePair(s, s.ops[op].user, true, ByFactor(s.ops[op].check), exp), op)
    case RefreshLoad(op, t) => Set(s, op, Refreshing(t, s.users[s.tokens[t].user].mfaEnabled))
    case RefreshConsume(op, now) =>
      var o := s.ops[op];
      if Usable(s.rows, o.token, now) then
        Set(s, op, Rotating(o.token, o.token in s.tokens && s.tokens[o.token].mfa && o.enabled)).(
          rows := Revoke(s.rows, o.token), exchanged := s.exchanged + [o.token])
      else Done(s, op)
    case RefreshIssue(op, exp) =>
      var o := s.ops[op];
      Done(IssuePair(s, s.tokens[o.token].user, o.mfa, ByRefresh(o.token), exp), op)
    case ChangeLoad(op, b) => Set(s, op, Changing(b, s.users[s.tokens[b].user].mfaEnabled))
    case ChangeRevoke(op) =>
      var o := s.ops[op];
      Set(s, op, ChangeRevoked(o.bearer, o.enabled)).(rows := RevokeAll(s.rows, s.tokens[o.bearer].user))
    case ChangeIssue(op, exp) =>
      var o := s.ops[op];
      Done(IssuePair(s, s.tokens[o.bearer].user, s.tokens[o.bearer].mfa && o.enabled, ByPasswordChange(o.bearer), exp), op)
    case DisableLoad(op, b) => Set(s, op, Disabling(s.tokens[b].user))
    case DisableStore(op) =>
      var u := s.ops[op].user;
      Done(WithUser(s, u, s.users[u].(mfaEnabled := false, hasSecret := false)), op)
    case RegenerateLoad(op, b) => Set(s, op, Regenerating(s.tokens[b].user))
    case RegenerateStore(op, hashes) =>
      var u := s.ops[op].user;
      Done(WithUser(s, u, s.users[u].(codes := hashes)), op).(codesEver := s.codesEver + hashes)
    case Logout(t, now) => s.(rows := Revoke(s.rows, t))
    case RevokeUser(u) => s.(rows := RevokeAll(s.rows, u))
    case SetUser(u, isAdmin, active) =>
      WithUser(s, u, s.users[u].(isAdmin := isAdmin, active := active)).(
        rows := if active then s.rows else RevokeAll(s.rows, u))
    case Cleanup(t) => s.(rows := s.rows - {t})
    case Abandon(op) => Done(s, op)
  }

  /** AdminMiddleware */
  predicate AdminAdmits(s: State, b: int) {
    Bearer(s, b) && s.users[s.tokens[b].user].isAdmin && s.users[s.tokens[b].user].mfaEnabled && s.tokens[b].mfa
  }

  /** Before anyone has logged in; accounts may exist, some of them administrators. */
  ghost predicate Init(s: State) {
    && s.tokens == map[] && s.issued == 0 && s.rows == map[] && s.ops == map[] && s.checks == []
    && s.exchanged == [] && s.redeemed == []
    && (forall u :: u in s.users ==> s.users[u].codes <= s.codesEver)
    && (forall u, v :: u in s.users && v in s.users && u != v ==> s.users[u].codes !! s.users[v].codes)
  }

  ghost predicate IsRun(run: seq<State>, steps: seq<Step>) {
    && |run| == |steps| + 1 && Init(run[0])
    && forall i {:trigger steps[i]} :: 0 <= i < |steps| ==> Enabled(run[i], steps[i]) && run[i + 1] == Apply(run[i], steps[i])
  }

  // ----- where the MFA mark comes from -----

  /** A marked token comes from a factor check of its user, or from an older marked token of its user. */
  predicate MarkExplained(s: State, t: int)
    requires t in s.tokens
  {
    var token := s.tokens[t];
    token.mfa ==>
      match token.origin
      case ByFactor(c) => c < |s.checks| && s.checks[c] == token.user
      case ByRefresh(p) => p < t && p in s.tokens && s.tokens[p].mfa && s.tokens[p].user == token.user
      case ByPasswordChange(p) => p < t && p in s.tokens && s.tokens[p].mfa && s.tokens[p].user == token.user
      case _ => false
  }

  /** A handler that is about to issue a marked token has the right to. */
  predicate OpExplained(s: State, o: Op) {
    match o
    case Verified(u, c) => c < |s.checks| && s.checks[c] == u
    case EnableChecked(u, c) => c < |s.checks| && s.checks[c] == u
    case EnableStored(u, c) => c < |s.checks| && s.checks[c] == u
    case EnableRevoked(u, c) => c < |s.checks| && s.checks[c] == u
    case Rotating(t, mfa) => t in s.tokens && (mfa ==> s.tokens[t].mfa)
    case Refreshing(t, _) => t in s.tokens
    case Changing(b, _) => b in s.tokens
    case ChangeRevoked(b, _) => b in s.tokens
    case _ => true
  }

  predicate MarkInv(s: State) {
    && s.issued >= 0
    && (forall t :: t in s.tokens ==> 0 <= t < s.issued && MarkExplained(s, t))
    && (forall op :: op in s.ops ==> OpExplained(s, s.ops[op]))
  }

  // ----- single use -----

  predicate UseInv(s: State) {
    && (forall t :: t in s.rows ==> 0 <= t < s.issued)
    && (forall i :: 0 <= i < |s.exchanged| ==>
          0 <= s.exchanged[i] < s.issued && (s.exchanged[i] in s.rows ==> s.rows[s.exchanged[i]].revoked))
    && (forall i, j :: 0 <= i < j < |s.exchanged| ==> s.exchanged[i] != s.exchanged[j])
  }

  ghost predicate CodeInv(s: State) {
    && (forall u :: u in s.users ==> s.users[u].codes <= s.codesEver)
    && (forall u, v :: u in s.users && v in s.users && u != v ==> s.users[u].codes !! s.users[v].codes)
    && (forall i :: 0 <= i < |s.redeemed| ==> s.redeemed[i] in s.codesEver)
    && (forall i, u :: 0 <= i < |s.redeemed| && u in s.users ==> s.redeemed[i] !in s.users[u].codes)
    && (forall i, j :: 0 <= i < j < |s.redeemed| ==> s.redeemed[i] != s.redeemed[j])
  }

  /** A token once explained stays so: tokens and checks are only ever added. */
  lemma StillExplained(s: State, s': State)
    requires MarkInv(s) && s'.issued >= s.issued && s.checks <= s'.checks
    requires forall t :: t in s.tokens ==> t in s'.tokens && s'.tokens[t] == s.tokens[t]
    ensures forall t :: t in s.tokens ==> 0 <= t < s'.issued && MarkExplained(s', t)
    ensures forall op :: op in s.ops ==> OpExplained(s', s.ops[op])
  {
    forall t | t in s.tokens
      ensures 0 <= t < s'.issued && MarkExplained(s', t)
    {
      assert MarkExplained(s, t);
    }
    forall op | op in s.ops
      ensures OpExplained(s', s.ops[op])
    {
      assert OpExplained(s, s.ops[op]);
    }
  }

  lemma IssuePairKeepsMarks(s: State, user: string, mfa: bool, origin: Origin, expiresAt: int)
    requires MarkInv(s)
    requires mfa ==>
               match origin
               case ByFactor(c) => c < |s.checks| && s.checks[c] == user
               case ByRefresh(p) => p in s.tokens && s.tokens[p].mfa && s.tokens[p].user == user
               case ByPasswordChange(p) => p in s.tokens && s.tokens[p].mfa && s.tokens[p].user == user
               case _ => false
    ensures MarkInv(IssuePair(s, user, mfa, origin, expiresAt))
  {
    StillExplained(s, IssuePair(s, user, mfa, origin, expiresAt));
  }

  lemma IssueOneKeepsMarks(s: State, kind: Kind, user: string, origin: Origin)
    requires MarkInv(s)
    ensures MarkInv(IssueOne(s, kind, user, origin))
  {
    StillExplained(s, IssueOne(s, kind, user, origin));
  }

  predicate Issues(step: Step) {
    step.Register? || step.Login? || step.Impersonate? || step.VerifyIssue? || step.EnableIssue? || step.RefreshIssue?
    || step.ChangeIssue?
  }

  lemma UnmarkedIssueKeepsMarks(s: State, step: Step)
    requires MarkInv(s) && Enabled(s, step) && (step.Register? || step.Login? || step.Impersonate?)
    ensures MarkInv(Apply(s, step))
  {
    match step
    case Register(u, exp) =>
      IssuePairKeepsMarks(WithUser(s, u, User(false, true, false, false, {})), u, false, ByPassword, exp);
    case Login(u, exp) =>
      IssuePairKeepsMarks(s, u, false, ByPassword, exp);
      IssueOneKeepsMarks(s, PasswordOnly, u, ByPassword);
    case Impersonate(b, target) => IssueOneKeepsMarks(s, Access, target, ByImpersonation(s.tokens[b].user));
  }

  lemma FactorIssueKeepsMarks(s: State, step: Step)
    requires MarkInv(s) && Enabled(s, step) && (step.VerifyIssue? || step.EnableIssue?)
    ensures MarkInv(Apply(s, step))
  {
    var o := s.ops[step.op];
    assert OpExplained(s, o);
    IssuePairKeepsMarks(s, o.user, true, ByFactor(o.check), step.expiresAt);
  }

  lemma RefreshIssueKeepsMarks(s: State, op: int, expiresAt: int)
    requires MarkInv(s) && Enabled(s, RefreshIssue(op, expiresAt))
    ensures MarkInv(Apply(s, RefreshIssue(op, expiresAt)))
  {
    var o := s.ops[op];
    assert OpExplained(s, o);
    IssuePairKeepsMarks(s, s.tokens[o.token].user, o.mfa, ByRefresh(o.token), expiresAt);
  }

  lemma ChangeIssueKeepsMarks(s: State, op: int, expiresAt: int)
    requires MarkInv(s) && Enabled(s, ChangeIssue(op, expiresAt))
    ensures MarkInv(Apply(s, ChangeIssue(op, expiresAt)))
  {
    var o := s.ops[op];
    IssuePairKeepsMarks(s, s.tokens[o.bearer].user, s.tokens[o.bearer].mfa && o.enabled, ByPasswordChange(o.bearer), expiresAt);
  }

  lemma OtherStepKeepsMarks(s: State, step: Step)
    requires MarkInv(s) && Enabled(s, step) && !Issues(step)
    ensures MarkInv(Apply(s, step))
  {
    var s' := Apply(s, step);
    assert s'.tokens == s.tokens && s'.issued == s.issued && s.checks <= s'.checks;
    StillExplained(s, s');
    forall op | op in s'.ops
      ensures OpExplained(s', s'.ops[op])
    {
      if op in s.ops {
        assert OpExplained(s, s.ops[op]);
      }
    }
  }

  lemma StepKeepsMarks(s: State, step: Step)
    requires MarkInv(s) && Enabled(s, step)
    ensures MarkInv(Apply(s, step))
  {
    if step.Register? || step.Login? || step.Impersonate? {
      UnmarkedIssueKeepsMarks(s, step);
    } else if step.VerifyIssue? || step.EnableIssue? {
      FactorIssueKeepsMarks(s, step);
    } else if step.RefreshIssue? {
      RefreshIssueKeepsMarks(s, step.op, step.expiresAt);
    } else if step.ChangeIssue? {
      ChangeIssueKeepsMarks(s, step.op, step.expiresAt);
    } else {
      OtherStepKeepsMarks(s, step);
    }
  }

  /** Rows of tokens issued so far, none of them revived, keep single use. */
  lemma FewerUsableRows(s: State, s': State)
    requires UseInv(s) && s'.issued == s.issued && s'.exchanged == s.exchanged
    requires forall t :: t in s'.rows ==> t in s.rows && (s.rows[t].revoked ==> s'.rows[t].revoked)
    ensures UseInv(s')
  {
  }

  /** New tokens have new numbers. */
  lemma NewTokensKeepUse(s: State, s': State)
    requires UseInv(s) && s'.issued >= s.issued >= 0 && s'.exchanged == s.exchanged
    requires forall t :: t in s'.rows ==> (t in s.rows && s'.rows[t] == s.rows[t]) || s.issued <= t < s'.issued
    ensures UseInv(s')
  {
  }

  lemma ConsumeKeepsUse(s: State, op: int, now: int)
    requires UseInv(s) && Enabled(s, RefreshConsume(op, now))
    ensures UseInv(Apply(s, RefreshConsume(op, now)))
  {
  }

  lemma {:induction false} StepKeepsUse(s: State, step: Step)
    requires MarkInv(s) && UseInv(s) && Enabled(s, step)
    ensures UseInv(Apply(s, step))
  {
    if Issues(step) {
      NewTokensKeepUse(s, Apply(s, step));
    } else if step.RefreshConsume? {
      ConsumeKeepsUse(s, step.op, step.now);
    } else {
      FewerUsableRows(s, Apply(s, step));
    }
  }

  lemma SameCodes(s: State, s': State)
    requires CodeInv(s) && s'.codesEver == s.codesEver && s'.redeemed == s.redeemed
    requires forall u :: u in s'.users ==> s'.users[u].codes == if u in s.users then s.users[u].codes else {}
    ensures CodeInv(s')
  {
  }

  lemma RedeemKeepsCodes(s: State, op: int, h: string)
    requires CodeInv(s) && Enabled(s, VerifyRecoveryCode(op, h))
    ensures CodeInv(Apply(s, VerifyRecoveryCode(op, h)))
  {
    var s' := Apply(s, VerifyRecoveryCode(op, h));
    var u := s.ops[op].user;
    assert forall v :: v in s'.users ==> s'.users[v].codes <= s.users[v].codes;
  }

  lemma RegenerateKeepsCodes(s: State, op: int, hashes: set<string>)
    requires CodeInv(s) && Enabled(s, RegenerateStore(op, hashes))
    ensures CodeInv(Apply(s, RegenerateStore(op, hashes)))
  {
    var s' := Apply(s, RegenerateStore(op, hashes));
    var u := s.ops[op].user;
    assert forall v :: v in s'.users ==> s'.users[v].codes == if v == u then hashes else s.users[v].codes;
  }

  lemma StepKeepsCodes(s: State, step: Step)
    requires CodeInv(s) && Enabled(s, step)
    ensures CodeInv(Apply(s, step))
  {
    if step.VerifyRecoveryCode? {
      RedeemKeepsCodes(s, step.op, step.hash);
    } else if step.RegenerateStore? {
      RegenerateKeepsCodes(s, step.op, step.hashes);
    } else {
      SameCodes(s, Apply(s, step));
    }
  }

  lemma {:induction false} RunKeepsInv(run: seq<State>, steps: seq<Step>, i: nat)
    requires IsRun(run, steps) && i < |run|
    ensures MarkInv(run[i]) && UseInv(run[i]) && CodeInv(run[i])
  {
    if i > 0 {
      RunKeepsInv(run, steps, i - 1);
      var step := steps[i - 1];
      StepKeepsMarks(run[i - 1], step);
      StepKeepsUse(run[i - 1], step);
      StepKeepsCodes(run[i - 1], step);
    }
  }

  // ----- what the platform may rely on -----

  /** The line of descent of a marked token: itself, the token it replaced, and so on to a factor check. */
  ghost predicate Descends(s: State, line: seq<int>) {
    && line != [] && line[0] in s.tokens
    && (forall i :: 0 <= i < |line| ==> line[i] in s.tokens && s.tokens[line[i]].mfa && s.tokens[line[i]].user == s.tokens[line[0]].user)
    && (forall i :: 0 <= i < |line| - 1 ==>
          s.tokens[line[i]].origin == ByRefresh(line[i + 1]) || s.tokens[line[i]].origin == ByPasswordChange(line[i + 1]))
    && var root := s.tokens[line[|line| - 1]];
       root.origin.ByFactor? && root.origin.check < |s.checks| && s.checks[root.origin.check] == s.tokens[line[0]].user
  }

  lemma {:induction false} LineOfDescent(s: State, t: int) returns (line: seq<int>)
    requires MarkInv(s) && t in s.tokens && s.tokens[t].mfa
    ensures Descends(s, line) && line[0] == t
    decreases t
  {
    assert MarkExplained(s, t);
    var origin := s.tokens[t].origin;
    if origin.ByFactor? {
      line := [t];
    } else {
      var p := origin.parent;
      assert 0 <= p;
      var rest := LineOfDescent(s, p);
      line := [t] + rest;
      forall i | 0 <= i < |line| - 1
        ensures s.tokens[line[i]].origin == ByRefresh(line[i + 1]) || s.tokens[line[i]].origin == ByPasswordChange(line[i + 1])
      {
        if i > 0 {
          assert line[i] == rest[i - 1] && line[i + 1] == rest[i];
        }
      }
    }
  }

  /** Every token with the MFA mark descends from a successful second-factor check by the same user. */
  lemma MarkedTokensDescendFromFactor(run: seq<State>, steps: seq<Step>, i: nat, t: int)
    requires IsRun(run, steps) && i < |run| && t in run[i].tokens && run[i].tokens[t].mfa
    ensures exists line :: Descends(run[i], line) && line[0] == t
  {
    RunKeepsInv(run, steps, i);
    var line := LineOfDescent(run[i], t);
  }

  /** So does every request the administration lets in. */
  lemma AdmittedRequestsPassedFactor(run: seq<State>, steps: seq<Step>, i: nat, b: int)
    requires IsRun(run, steps) && i < |run| && AdminAdmits(run[i], b)
    ensures exists line :: Descends(run[i], line) && line[0] == b
    ensures run[i].tokens[b].user in run[i].checks
  {
    MarkedTokensDescendFromFactor(run, steps, i, b);
    var line :| Descends(run[i], line) && line[0] == b;
  }

  /** Each refresh token is exchanged at most once, however many requests present it. */
  lemma RefreshTokensAreSingleUse(run: seq<State>, steps: seq<Step>, i: nat, j: nat, k: nat)
    requires IsRun(run, steps) && i < |run|
    requires j < k < |run[i].exchanged|
    ensures run[i].exchanged[j] != run[i].exchanged[k]
  {
    RunKeepsInv(run, steps, i);
  }

  /** Each recovery code is redeemed at most once, and only if it was stored. */
  lemma RecoveryCodesAreSingleUse(run: seq<State>, steps: seq<Step>, i: nat)
    requires IsRun(run, steps) && i < |run|
    ensures forall j, k :: 0 <= j < k < |run[i].redeemed| ==> run[i].redeemed[j] != run[i].redeemed[k]
    ensures forall n :: 0 <= n < |run[i].redeemed| ==> run[i].redeemed[n] in run[i].codesEver
  {
    RunKeepsInv(run, steps, i);
  }

  // ----- single steps -----

  /** A refresh goes through exactly if its token's row is there, not revoked and not expired, and then revokes it. */
  lemma RefreshGoesThroughIff(s: State, op: int, now: int)
    requires Enabled(s, RefreshConsume(op, now))
    ensures var t := s.ops[op].token; var s' := Apply(s, RefreshConsume(op, now));
            if t in s.rows && !s.rows[t].revoked && now <= s.rows[t].expiresAt then
              s'.exchanged == s.exchanged + [t] && op in s'.ops && t in s'.rows && s'.rows[t].revoked
            else s'.exchanged == s.exchanged && op !in s'.ops && s'.rows == s.rows
  {
  }

  /** The new tokens are marked exactly if the old one was and the account, when it was read, still had MFA on. */
  lemma RefreshKeepsMarkIff(s: State, load: State, op: int, t: int, now: int, expiresAt: int)
    requires Enabled(load, RefreshLoad(op, t))
    requires op in s.ops && s.ops[op] == Apply(load, RefreshLoad(op, t)).ops[op]
    requires t in s.tokens && s.tokens[t] == load.tokens[t]
    requires t in s.rows && !s.rows[t].revoked && now <= s.rows[t].expiresAt
    ensures var consumed := Apply(s, RefreshConsume(op, now));
            Enabled(consumed, RefreshIssue(op, expiresAt)) &&
            var issued := Apply(consumed, RefreshIssue(op, expiresAt)).tokens;
            && issued[s.issued].mfa == issued[s.issued + 1].mfa
            && (issued[s.issued].mfa <==> load.tokens[t].mfa && load.users[load.tokens[t].user].mfaEnabled)
  {
  }

  /** A password alone gives an administrator with MFA no session, and never a marked one to anybody. */
  lemma PasswordAloneIsHeldBack(s: State, u: string, expiresAt: int)
    requires Enabled(s, Login(u, expiresAt))
    ensures var s' := Apply(s, Login(u, expiresAt));
            && (forall t :: t in s'.tokens && t !in s.tokens ==> s'.tokens[t].user == u && !s'.tokens[t].mfa)
            && (s.users[u].isAdmin && s.users[u].mfaEnabled ==>
                  s'.rows == s.rows && forall t :: t in s'.tokens && t !in s.tokens ==> s'.tokens[t].kind == PasswordOnly)
  {
  }
}
