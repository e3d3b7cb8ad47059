/**
 Versioned administrator sessions: handlers of concurrent requests read the
 administrator row, and later update it only if nobody got in between.  Time is
 in seconds; signatures cannot be forged, so only issued tokens are presented.
 */
module AdminSessions {
  import opened Wrappers

  /** 7 days and 24 hours. */
  const MAX_SESSION_AGE := 604800
  const TOKEN_LIFETIME := 86400

  /** A stored hash of a recovery code; salting makes every one distinct. */
  type Code = nat

  datatype Admin = Admin(version: nat, password: nat, totp: bool, codes: seq<Code>)

  datatype Token = Token(version: nat, login: int, expires: int)

  datatype Change = ChangePassword(password: nat) | EnableTotp | DisableTotp | LogoutAll

  function Min(a: int, b: int): int { if a < b then a else b }

  /** generateToken for an administrator. */
  function Minted(version: nat, login: int, now: int, duration: int): Token {
    Token(version, login, Min(now + duration, login + MAX_SESSION_AGE))
  }

  /** ValidateToken and the version check of the middleware. */
  predicate Accepts(now: int, admin: Admin, t: Token) {
    && now < t.expires && 0 < t.login <= now + 1 && now < t.login + MAX_SESSION_AGE
    && admin.version == t.version
  }

  function Changed(a: Admin, c: Change): Admin {
    match c
    case ChangePassword(p) => a.(version := a.version + 1, password := p)
    case EnableTotp => a.(version := a.version + 1, totp := true)
    case DisableTotp => a.(version := a.version + 1, totp := false, codes := [])
    case LogoutAll => a.(version := a.version + 1)
  }

  function Without(codes: seq<Code>, i: nat): seq<Code>
    requires i < |codes|
  {
    codes[..i] + codes[i + 1..]
  }

  /** The compare-and-swap of a used recovery code. */
  predicate StillHolds(a: Admin, read: Admin) { a.version == read.version && a.codes == read.codes }

  // ---------- The row ----------

  /** The compare-and-swap of a security change. */
  function UpdateRow(a: Admin, read: Admin, change: Change): Option<Admin> {
    if a.version == read.version then Some(Changed(a, change)) else None
  }

  /** The compare-and-swap of a spent recovery code. */
  function SpendRow(a: Admin, read: Admin, index: nat): Option<Admin> {
    if index < |read.codes| && StillHolds(a, read) then Some(a.(codes := Without(read.codes, index))) else None
  }

  function OrElse<T>(o: Option<T>, d: T): T { match o case Some(v) => v case None => d }

  class AdminRow {
    var row: Admin

    constructor (row: Admin)
      ensures this.row == row
    {
      this.row := row;
    }

    /** The commit step on the row: a change that committed shuts out every other
        change that had read the same version. */
    method UpdateAdminSecurity(read: Admin, change: Change) returns (ok: bool)
      modifies this
      ensures ok == UpdateRow(old(row), read, change).Some? && row == OrElse(UpdateRow(old(row), read, change), old(row))
      ensures ok ==> row.version > read.version && forall other :: UpdateRow(row, read, other).None?
      ensures ok && change.ChangePassword? ==> row == old(row).(version := read.version + 1, password := change.password)
      ensures ok && change.EnableTotp? ==> row == old(row).(version := read.version + 1, totp := true)
      ensures ok && change.DisableTotp? ==> row == old(row).(version := read.version + 1, totp := false, codes := [])
      ensures ok && change.LogoutAll? ==> row == old(row).(version := read.version + 1)
    {
      ok := row.version == read.version;
      if ok {
        row := Changed(row, change);
      }
    }

    /** The spend step on the row, for the first stored code that matches: the
        code is gone from the row, and nobody who had read the same row can spend
        any code of it. */
    method TryRecoveryCode(read: Admin, matches: Code -> bool) returns (ok: bool, spent: nat)
      modifies this
      ensures row == OrElse(SpendRow(old(row), read, spent), old(row)) && ok == SpendRow(old(row), read, spent).Some?
      ensures spent < |read.codes| ==> matches(read.codes[spent])
      ensures spent >= |read.codes| ==> forall i :: 0 <= i < |read.codes| ==> !matches(read.codes[i])
      ensures ok && NoRepeats(read.codes) ==> read.codes[spent] !in row.codes
      ensures ok ==> row == old(row).(codes := read.codes[..spent] + read.codes[spent + 1..])
      ensures ok ==> forall index :: SpendRow(row, read, index).None?
    {
      spent := 0;
      while spent < |read.codes|
        invariant spent <= |read.codes| && forall i :: 0 <= i < spent ==> !matches(read.codes[i])
        invariant row == old(row)
      {
        if matches(read.codes[spent]) {
          ok := StillHolds(row, read);
          if ok {
            row := row.(codes := Without(read.codes, spent));
            if NoRepeats(read.codes) {
              WithoutIs(read.codes, spent);
            }
          }
          return;
        }
        spent := spent + 1;
      }
      ok := false;
    }
  }

  // ---------- Interleavings ----------

  datatype Request =
    | LoginRead(row: Admin)
    | LoginChecked(row: Admin)
    | Authenticated(token: Token)
    | ChangeRead(token: Token, row: Admin)

  /** When a token was issued. */
  datatype Mint = Mint(token: Token, at: int)

  /** `used` lists the spent codes and `commits` the versions that committed
      changes had read, oldest first; `logins` are the times of issued logins and
      `mints` the issued tokens with their times. */
  datatype State = State(
    now: int, admin: Admin, tokens: set<Token>, requests: map<nat, Request>,
    minted: set<Code>, used: seq<Code>, commits: seq<nat>, logins: set<int>, mints: set<Mint>)

  datatype Action =
    | Tick(seconds: nat)
    | ReadForLogin(id: nat)
    | PassTotp(id: nat)
    | SpendCode(id: nat, index: nat)
    | Issue(id: nat)
    | Authenticate(id: nat, token: Token)
    | Refresh(id: nat)
    | ReadForChange(id: nat)
    | Commit(id: nat, change: Change)
    | Setup(id: nat, codes: seq<Code>)

  function Done(s: State, id: nat): State { s.(requests := s.requests - {id}) }

  function Put(s: State, id: nat, r: Request): State { s.(requests := s.requests[id := r]) }

  function WithToken(s: State, t: Token): State {
    s.(tokens := s.tokens + {t}, mints := s.mints + {Mint(t, s.now)})
  }

  function IssueStep(s: State, id: nat, row: Admin): State {
    Done(WithToken(s, Minted(row.version, s.now, s.now, TOKEN_LIFETIME)).(logins := s.logins + {s.now}), id)
  }

  function RefreshStep(s: State, id: nat, t: Token): State {
    var remaining := t.login + MAX_SESSION_AGE - s.now;
    if remaining <= 0 then Done(s, id)
    else Done(WithToken(s, Minted(t.version, t.login, s.now, Min(TOKEN_LIFETIME, remaining))), id)
  }

  function SpendStep(s: State, id: nat, row: Admin, index: nat): State {
    match SpendRow(s.admin, row, index)
    case None => Done(s, id)
    case Some(admin) =>
      if !row.totp then Done(s, id)
      else Put(s.(admin := admin, used := s.used + [row.codes[index]]), id, LoginChecked(row.(codes := admin.codes)))
  }

  function CommitStep(s: State, id: nat, row: Admin, change: Change): State {
    match UpdateRow(s.admin, row, change)
    case None => Done(s, id)
    case Some(admin) => Done(s.(admin := admin, commits := s.commits + [row.version]), id)
  }

  predicate Fresh(s: State, codes: seq<Code>) {
    (forall c <- codes :: c !in s.minted) && NoRepeats(codes)
  }

  predicate NoRepeats(codes: seq<Code>) { forall i, j :: 0 <= i < j < |codes| ==> codes[i] != codes[j] }

  /** 2FA setup stores new codes while 2FA is off; the version stays. */
  function SetupStep(s: State, id: nat, row: Admin, codes: seq<Code>): State {
    if row.totp || !Fresh(s, codes) then Done(s, id)
    else
      var minting := s.(minted := s.minted + set c <- codes);
      if s.admin.version != row.version || s.admin.totp then Done(minting, id)
      else Done(minting.(admin := s.admin.(codes := codes)), id)
  }

  /** An action that is not enabled does nothing. */
  function Step(s: State, a: Action): State {
    match a
    case Tick(d) => s.(now := s.now + d)
    case ReadForLogin(id) => if id in s.requests then s else Put(s, id, LoginRead(s.admin))
    case Authenticate(id, t) =>
      if id in s.requests || t !in s.tokens || !Accepts(s.now, s.admin, t) then s else Put(s, id, Authenticated(t))
    case _ => if a.id in s.requests then RequestStep(s, a.id, s.requests[a.id], a) else s
  }

  function RequestStep(s: State, id: nat, r: Request, a: Action): State {
    match (a, r)
    case (PassTotp(_), LoginRead(row)) => Put(s, id, LoginChecked(row))
    case (SpendCode(_, index), LoginRead(row)) => SpendStep(s, id, row, index)
    case (Issue(_), LoginChecked(row)) => IssueStep(s, id, row)
    case (Refresh(_), Authenticated(t)) => RefreshStep(s, id, t)
    case (ReadForChange(_), Authenticated(t)) => Put(s, id, ChangeRead(t, s.admin))
    case (Commit(_, change), ChangeRead(_, row)) => CommitStep(s, id, row, change)
    case (Setup(_, codes), ChangeRead(_, row)) => SetupStep(s, id, row, codes)
    case _ => s
  }

  function Run(s: State, actions: seq<Action>): State
    decreases |actions|
  {
    if actions == [] then s else Run(Step(s, actions[0]), actions[1..])
  }

  function Initial(now: int, admin: Admin): State {
    State(now, admin, {}, map[], set c <- admin.codes, [], [], {}, {})
  }

  // ---------- The invariant ----------

  predicate TokenOk(s: State, t: Token) {
    t.version <= s.admin.version && t.login in s.logins && t.login <= s.now && t.expires <= t.login + MAX_SESSION_AGE
  }

  predicate RequestOk(s: State, r: Request) {
    match r
    case LoginRead(row) => row.version <= s.admin.version
    case LoginChecked(row) => row.version <= s.admin.version
    case Authenticated(t) => TokenOk(s, t)
    case ChangeRead(t, row) => TokenOk(s, t) && t.version <= row.version <= s.admin.version
  }

  predicate SessionsOk(s: State) {
    (forall t <- s.tokens :: TokenOk(s, t)) && forall id <- s.requests :: RequestOk(s, s.requests[id])
  }

  predicate CommitsOk(s: State) {
    && (forall i, j :: 0 <= i < j < |s.commits| ==> s.commits[i] < s.commits[j])
    && forall i :: 0 <= i < |s.commits| ==> s.commits[i] < s.admin.version
  }

  predicate CodesOk(s: State) {
    && NoRepeats(s.admin.codes) && NoRepeats(s.used)
    && (forall c <- s.admin.codes :: c in s.minted && c !in s.used)
    && forall c <- s.used :: c in s.minted
  }

  /** A token ends at most 24 hours after it was issued. */
  predicate Dated(s: State, t: Token) {
    exists m <- s.mints :: m.token == t && m.at <= s.now && t.expires <= m.at + 86400
  }

  predicate DatesOk(s: State) { forall t <- s.tokens :: Dated(s, t) }

  predicate Invariant(s: State) { SessionsOk(s) && CommitsOk(s) && CodesOk(s) && DatesOk(s) }

  /** Time, version and known logins only grow. */
  predicate Later(s: State, n: State) { s.admin.version <= n.admin.version && s.now <= n.now && s.logins <= n.logins }

  lemma StepIsLater(s: State, a: Action)
    ensures Later(s, Step(s, a))
  {
  }

  lemma RequestStaysOk(s: State, n: State, r: Request)
    requires Later(s, n) && RequestOk(s, r)
    ensures RequestOk(n, r)
  {
  }

  lemma StepKeepsTokens(s: State, a: Action)
    requires SessionsOk(s)
    ensures forall t <- Step(s, a).tokens :: TokenOk(Step(s, a), t)
  {
    var n := Step(s, a);
    StepIsLater(s, a);
    forall t | t in n.tokens ensures TokenOk(n, t) {
      if t in s.tokens {
        assert TokenOk(s, t);
      } else {
        assert RequestOk(s, s.requests[a.id]);
      }
    }
  }

  lemma StepKeepsRequests(s: State, a: Action)
    requires SessionsOk(s)
    ensures forall id <- Step(s, a).requests :: RequestOk(Step(s, a), Step(s, a).requests[id])
  {
    var n := Step(s, a);
    StepIsLater(s, a);
    forall id | id in n.requests ensures RequestOk(n, n.requests[id]) {
      if id in s.requests {
        RequestStaysOk(s, n, s.requests[id]);
      }
    }
  }

  lemma StepKeepsSessions(s: State, a: Action)
    requires SessionsOk(s)
    ensures SessionsOk(Step(s, a)) && s.admin.version <= Step(s, a).admin.version
  {
    StepIsLater(s, a);
    StepKeepsTokens(s, a);
    StepKeepsRequests(s, a);
  }

  lemma WithoutIs(codes: seq<Code>, i: nat)
    requires i < |codes| && NoRepeats(codes)
    ensures NoRepeats(Without(codes, i)) && codes[i] !in Without(codes, i) && forall c <- Without(codes, i) :: c in codes
  {
  }

  lemma StepKeepsCodes(s: State, a: Action)
    requires CodesOk(s)
    ensures CodesOk(Step(s, a))
  {
    if a.SpendCode? && a.id in s.requests && s.requests[a.id].LoginRead? {
      SpendKeepsCodes(s, a.id, s.requests[a.id].row, a.index);
    } else if a.Setup? && a.id in s.requests && s.requests[a.id].ChangeRead? {
      SetupKeepsCodes(s, a.id, s.requests[a.id].row, a.codes);
    }
  }

  lemma SpendKeepsCodes(s: State, id: nat, row: Admin, index: nat)
    requires CodesOk(s)
    ensures CodesOk(SpendStep(s, id, row, index))
  {
    if index < |row.codes| && StillHolds(s.admin, row) {
      WithoutIs(row.codes, index);
      assert row.codes[index] in s.admin.codes;
    }
  }

  lemma SetupKeepsCodes(s: State, id: nat, row: Admin, codes: seq<Code>)
    requires CodesOk(s)
    ensures CodesOk(SetupStep(s, id, row, codes))
  {
  }

  lemma StepKeepsCommits(s: State, a: Action)
    requires CommitsOk(s)
    ensures CommitsOk(Step(s, a))
  {
  }

  lemma StepKeepsDates(s: State, a: Action)
    requires DatesOk(s)
    ensures DatesOk(Step(s, a))
  {
    var n := Step(s, a);
    forall t | t in n.tokens ensures Dated(n, t) {
      if t in s.tokens {
        var m :| m in s.mints && m.token == t && m.at <= s.now && t.expires <= m.at + 86400;
        assert m in n.mints;
      } else {
        assert Mint(t, s.now) in n.mints;
      }
    }
  }

  lemma StepPreserves(s: State, a: Action)
    requires Invariant(s)
    ensures Invariant(Step(s, a)) && s.admin.version <= Step(s, a).admin.version
  {
    StepKeepsSessions(s, a);
    StepKeepsCommits(s, a);
    StepKeepsCodes(s, a);
    StepKeepsDates(s, a);
  }

  /** Versions only grow, whatever is interleaved. */
  lemma {:induction false} RunPreserves(s: State, actions: seq<Action>)
    requires Invariant(s)
    ensures Invariant(Run(s, actions)) && s.admin.version <= Run(s, actions).admin.version
    decreases |actions|
  {
    if actions != [] {
      StepPreserves(s, actions[0]);
      RunPreserves(Step(s, actions[0]), actions[1..]);
    }
  }

  lemma InitialOk(now: int, admin: Admin)
    requires NoRepeats(admin.codes)
    ensures Invariant(Initial(now, admin))
  {
  }

  /** Of the changes that read a given version, at most one commits. */
  lemma OneCommitPerVersion(now: int, admin: Admin, actions: seq<Action>, i: nat, j: nat)
    requires NoRepeats(admin.codes)
    requires var s := Run(Initial(now, admin), actions); i < |s.commits| && j < |s.commits| && s.commits[i] == s.commits[j]
    ensures i == j
  {
    InitialOk(now, admin);
    RunPreserves(Initial(now, admin), actions);
  }

  /** Once a version is left, no token of it is ever accepted again. */
  lemma RevokedForever(s: State, actions: seq<Action>, t: Token)
    requires Invariant(s) && t.version < s.admin.version
    ensures !Accepts(Run(s, actions).now, Run(s, actions).admin, t)
  {
    RunPreserves(s, actions);
  }

  /** However often a session is refreshed, it goes back to one login, and every
      token of it ends within seven days of that login. */
  lemma SessionsEnd(now: int, admin: Admin, actions: seq<Action>, t: Token)
    requires NoRepeats(admin.codes) && t in Run(Initial(now, admin), actions).tokens
    ensures t.login in Run(Initial(now, admin), actions).logins && t.expires <= t.login + MAX_SESSION_AGE
  {
    InitialOk(now, admin);
    RunPreserves(Initial(now, admin), actions);
    assert TokenOk(Run(Initial(now, admin), actions), t);
  }

  /** The request was not there before and is let in. */
  predicate LetIn(s: State, id: nat, t: Token) { id !in s.requests && id in Step(s, Authenticate(id, t)).requests }

  /** In any run, who presents a token is let in if and only if it was issued, is
      of the current version and has not ended. */
  lemma LetInIff(now: int, admin: Admin, actions: seq<Action>, s: State, id: nat, t: Token)
    requires NoRepeats(admin.codes) && now > 0 && s == Run(Initial(now, admin), actions) && id !in s.requests
    ensures LetIn(s, id, t) <==> t in s.tokens && t.version == s.admin.version && s.now < t.expires
  {
    InitialOk(now, admin);
    RunPreserves(Initial(now, admin), actions);
    LoginsArePositive(Initial(now, admin), actions);
    if t in s.tokens {
      assert TokenOk(s, t);
    }
  }

  lemma {:induction false} LoginsArePositive(s: State, actions: seq<Action>)
    requires s.now > 0 && forall login <- s.logins :: login > 0
    ensures forall login <- Run(s, actions).logins :: login > 0
    decreases |actions|
  {
    if actions != [] {
      LoginsArePositive(Step(s, actions[0]), actions[1..]);
    }
  }

  /** In any run, whoever is let in holds a token that has not ended and was issued
      less than 24 hours ago, and logged in less than seven days ago. */
  lemma LetInIsRecent(now: int, admin: Admin, actions: seq<Action>, s: State, id: nat, t: Token)
    requires NoRepeats(admin.codes) && s == Run(Initial(now, admin), actions) && LetIn(s, id, t)
    ensures s.now < t.expires && t.login in s.logins && t.login <= s.now < t.login + 604800
    ensures exists m <- s.mints :: m.token == t && m.at <= s.now < m.at + 86400
  {
    InitialOk(now, admin);
    RunPreserves(Initial(now, admin), actions);
    assert TokenOk(s, t) && Dated(s, t);
  }

  /** A login lasts 24 hours; a refresh lasts as long, but not past seven days after
      the login. */
  lemma SessionsLast(s: State, id: nat)
    requires id in s.requests
    ensures var r, n := s.requests[id], Step(s, Issue(id));
            r.LoginChecked? ==> Token(r.row.version, s.now, s.now + 86400) in n.tokens
    ensures var r, n := s.requests[id], Step(s, Refresh(id));
            r.Authenticated? && s.now < r.token.login + 604800 ==>
              var end := if s.now + 86400 < r.token.login + 604800 then s.now + 86400 else r.token.login + 604800;
              Token(r.token.version, r.token.login, end) in n.tokens
    ensures s.requests[id].Authenticated? && s.now >= s.requests[id].token.login + 604800 ==> Step(s, Refresh(id)).tokens == s.tokens
  {
  }

  /** A 2FA setup replaces the recovery codes, exactly when 2FA is off, nothing has
      been changed since its row was read and the codes are new; nothing else of
      the row changes. */
  lemma SetupIff(s: State, id: nat, codes: seq<Code>)
    requires id in s.requests && s.requests[id].ChangeRead?
    ensures var row := s.requests[id].row;
            Step(s, Setup(id, codes)).admin ==
            if Fresh(s, codes) && !row.totp && !s.admin.totp && row.version == s.admin.version then s.admin.(codes := codes) else s.admin
  {
  }

  /** A token is only issued to a login that has passed all factors, or to a request
      let in with a token of the same login and version. */
  lemma TokensComeFrom(s: State, a: Action, t: Token)
    requires t in Step(s, a).tokens && t !in s.tokens
    ensures !a.Tick? && a.id in s.requests
    ensures match s.requests[a.id]
            case LoginChecked(row) => a.Issue? && t.version == row.version && t.login == s.now
            case Authenticated(old_) => a.Refresh? && t.version == old_.version && t.login == old_.login
            case _ => false
  {
  }

  /** The row only changes by a security change or a setup of a request that was let
      in and has read it, or by a recovery code of a login that has. */
  lemma RowChangesBy(s: State, a: Action)
    requires Step(s, a).admin != s.admin
    ensures !a.Tick? && a.id in s.requests
    ensures match s.requests[a.id]
            case ChangeRead(_, row) => (a.Commit? || a.Setup?) && row.version == s.admin.version
            case LoginRead(row) => a.SpendCode? && row.version == s.admin.version && row.codes == s.admin.codes
            case _ => false
  {
  }

  /** A recovery code passes the second factor of a login, and is gone then, exactly
      if 2FA was on and neither version nor codes have changed since the row of the
      login was read. */
  lemma SpendIff(s: State, id: nat, index: nat)
    requires id in s.requests && s.requests[id].LoginRead?
    ensures var row, n := s.requests[id].row, Step(s, SpendCode(id, index));
            var passes := row.totp && index < |row.codes| && row.version == s.admin.version && row.codes == s.admin.codes;
            && (id in n.requests && n.requests[id].LoginChecked? <==> passes)
            && n.admin == (if passes then s.admin.(codes := row.codes[..index] + row.codes[index + 1..]) else s.admin)
            && (passes ==> n.requests[id].row.version == row.version)
  {
  }

  /** Every stored recovery code lets somebody in at most once. */
  lemma CodesWorkOnce(now: int, admin: Admin, actions: seq<Action>)
    requires NoRepeats(admin.codes)
    ensures NoRepeats(Run(Initial(now, admin), actions).used)
  {
    InitialOk(now, admin);
    RunPreserves(Initial(now, admin), actions);
  }

  /** A login that raced a security change gets a token that is dead on arrival. */
  lemma RacedLoginIsDead(s: State, id: nat, row: Admin, actions: seq<Action>)
    requires Invariant(s) && id in s.requests && s.requests[id] == LoginChecked(row) && row.version != s.admin.version
    ensures !Accepts(Run(Step(s, Issue(id)), actions).now, Run(Step(s, Issue(id)), actions).admin, Minted(row.version, s.now, s.now, TOKEN_LIFETIME))
  {
    assert RequestOk(s, s.requests[id]);
    StepPreserves(s, Issue(id));
    RevokedForever(Step(s, Issue(id)), actions, Minted(row.version, s.now, s.now, TOKEN_LIFETIME));
  }

  // ---------- Changes by revoked sessions ----------

  /** The session has been revoked: no token of it is ever accepted again. */
  predicate Revoked(s: State, t: Token) { t.version < s.admin.version }

  predicate TakesEffect(s: State, id: nat, change: Change) { Step(s, Commit(id, change)).commits != s.commits }

  /** In any run, a change that takes effect is made by a session revoked in the
      meantime if and only if the row it compares was read after the revocation,
      that is, carries another version than the session: what is compared is the
      version of the row, never that of the session. */
  lemma RevokedCommitIff(now: int, admin: Admin, actions: seq<Action>, s: State, id: nat, change: Change)
    requires NoRepeats(admin.codes) && s == Run(Initial(now, admin), actions)
    requires id in s.requests && s.requests[id].ChangeRead?
    ensures var r := s.requests[id];
            TakesEffect(s, id, change) && Revoked(s, r.token)
            <==> r.row.version == s.admin.version && r.row.version != r.token.version
  {
    InitialOk(now, admin);
    RunPreserves(Initial(now, admin), actions);
    assert RequestOk(s, s.requests[id]);
    assert (s.commits + [s.requests[id].row.version]) != s.commits;
  }

  /** `n` is reached from `s`. */
  ghost predicate Reaches(s: State, n: State) { exists actions: seq<Action> :: Run(s, actions) == n }

  lemma {:induction false} RunSnoc(s: State, actions: seq<Action>, a: Action)
    ensures Run(s, actions + [a]) == Step(Run(s, actions), a)
    decreases |actions|
  {
    if actions == [] {
      assert [a][1..] == [] && [] + [a] == [a];
    } else {
      assert (actions + [a])[0] == actions[0] && (actions + [a])[1..] == actions[1..] + [a];
      RunSnoc(Step(s, actions[0]), actions[1..], a);
    }
  }

  lemma Do(s: State, n: State, a: Action) returns (next: State)
    requires Reaches(s, n)
    ensures next == Step(n, a) && Reaches(s, next)
  {
    var actions :| Run(s, actions) == n;
    RunSnoc(s, actions, a);
    next := Step(n, a);
  }

  /** One login, two requests of its session. */
  lemma TwoRequests(start: State) returns (s: State, t: Token)
    requires start == Initial(start.now, start.admin)
    ensures Reaches(start, s) && s.admin == start.admin && t.version == s.admin.version
    ensures 0 in s.requests && 1 in s.requests && s.requests[0] == s.requests[1] == Authenticated(t)
  {
    assert Run(start, []) == start;
    s := Do(start, start, Tick(if start.now <= 0 then 1 - start.now else 0));
    s := Do(start, s, ReadForLogin(0));
    s := Do(start, s, PassTotp(0));
    t := Minted(s.admin.version, s.now, s.now, TOKEN_LIFETIME);
    s := Do(start, s, Issue(0));
    s := Do(start, s, Authenticate(0, t));
    s := Do(start, s, Authenticate(1, t));
  }

  /** The second request logs out everywhere. */
  lemma LogOut(start: State, before: State, t: Token) returns (s: State)
    requires Reaches(start, before) && 0 in before.requests && 1 in before.requests
    requires before.requests[0] == before.requests[1] == Authenticated(t)
    ensures Reaches(start, s) && s.admin.version == before.admin.version + 1
    ensures 0 in s.requests && s.requests[0] == Authenticated(t)
  {
    s := Do(start, before, ReadForChange(1));
    s := Do(start, s, Commit(1, LogoutAll));
  }

  /** It does happen, from every start and with every change: one request logs out
      everywhere, the other, let in before, reads the row only then and commits. */
  lemma RevokedSessionCanStillCommit(now: int, admin: Admin, change: Change) returns (s: State)
    ensures Reaches(Initial(now, admin), s)
    ensures 0 in s.requests && s.requests[0].ChangeRead? && Revoked(s, s.requests[0].token) && TakesEffect(s, 0, change)
  {
    var start := Initial(now, admin);
    var t;
    s, t := TwoRequests(start);
    s := LogOut(start, s, t);
    s := Do(start, s, ReadForChange(0));
    assert s.requests[0] == ChangeRead(t, s.admin);
    assert (s.commits + [s.admin.version]) != s.commits;
  }
}
