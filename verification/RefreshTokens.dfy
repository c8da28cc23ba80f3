/**
  The refresh-token store as a history of transactions, run one at a time. Tokens are numbered in
  insertion order; a number stands for the row's id.
  */
module RefreshTokens {
  import opened Wrappers

  type UserId = nat
  type TokenId = nat
  type Instant = int

  datatype Token = Token(
    user: UserId, hash: string, expiresAt: Instant, revokedAt: Option<Instant>, replacedBy: Option<TokenId>)

  datatype User = User(email: string, password: string, active: bool)

  datatype State = State(users: map<UserId, User>, tokens: seq<Token>)

  const INIT := State(map[], [])

  datatype Outcome =
    | Issued(token: TokenId)
    | LoggedOut
    | PasswordChanged
    | Updated
    | InvalidToken
    | RevokedToken
    | ExpiredToken
    | InactiveUser
    | InvalidCredentials
    | DuplicateEmail
    | UnknownUser
    | WrongPassword
    | WeakPassword
    | StoreRefused

  /**
    One transaction. `presented` is the raw token of the request, `drawn` the hash of a newly drawn
    one, `now` the clock. SetActive stands for an administrator's change, which no service here makes.
    */
  datatype Op =
    | Register(user: UserId, email: string, password: string, strong: bool, drawn: string, now: Instant)
    | Login(email: string, password: string, drawn: string, now: Instant)
    | Refresh(presented: string, drawn: string, now: Instant)
    | Logout(presented: string, now: Instant)
    | ChangePassword(user: UserId, current: string, next: string, strong: bool, now: Instant)
    | SetActive(user: UserId, active: bool)

  /** The keyed digest of raw tokens and how long a token lives. */
  datatype Config = Config(hash: string -> string, lifetime: nat)

  function Find(tokens: seq<Token>, hash: string): (r: Option<TokenId>)
    ensures r.Some? ==> r.value < |tokens| && tokens[r.value].hash == hash
    ensures r.None? ==> forall i :: 0 <= i < |tokens| ==> tokens[i].hash != hash
  {
    if tokens == [] then None
    else if tokens[|tokens| - 1].hash == hash then Some(|tokens| - 1)
    else Find(tokens[..|tokens| - 1], hash)
  }

  /** email is unique, so at most one user has it. */
  ghost function UserByEmail(users: map<UserId, User>, email: string): Option<UserId> {
    if exists u :: u in users && users[u].email == email then
      var u :| u in users && users[u].email == email;
      Some(u)
    else None
  }

  /** _get_valid_refresh_token: the checks in the order in which they answer. */
  function Check(s: State, cfg: Config, presented: string, now: Instant): (r: Result<TokenId, Outcome>)
    ensures r.Success? ==> r.value < |s.tokens|
  {
    if presented == "" then Failure(InvalidToken)
    else match Find(s.tokens, cfg.hash(presented))
      case None => Failure(InvalidToken)
      case Some(i) =>
        if s.tokens[i].revokedAt.Some? then Failure(RevokedToken)
        else if s.tokens[i].expiresAt <= now then Failure(ExpiredToken)
        else Success(i)
  }

  function Issue(s: State, cfg: Config, user: UserId, drawn: string, now: Instant): (State, Outcome) {
    if Find(s.tokens, drawn).Some? then (s, StoreRefused)
    else (s.(tokens := s.tokens + [Token(user, drawn, now + cfg.lifetime, None, None)]), Issued(|s.tokens|))
  }

  function Revoke(s: State, i: TokenId, now: Instant, replacedBy: Option<TokenId>): State
    requires i < |s.tokens|
  {
    s.(tokens := s.tokens[i := s.tokens[i].(revokedAt := Some(now), replacedBy := replacedBy)])
  }

  function RevokeIfLive(t: Token, user: UserId, now: Instant): Token {
    if t.user == user && t.revokedAt.None? then t.(revokedAt := Some(now)) else t
  }

  function RevokeAll(tokens: seq<Token>, user: UserId, now: Instant): (r: seq<Token>)
    ensures |r| == |tokens|
    ensures forall i :: 0 <= i < |r| ==> r[i] == RevokeIfLive(tokens[i], user, now)
  {
    seq(|tokens|, i requires 0 <= i < |tokens| => RevokeIfLive(tokens[i], user, now))
  }

  ghost function DoRegister(s: State, cfg: Config, op: Op): (State, Outcome)
    requires op.Register?
  {
    if !op.strong then (s, WeakPassword)
    else if UserByEmail(s.users, op.email).Some? then (s, DuplicateEmail)
    else if op.user in s.users then (s, StoreRefused)
    else
      var (t, outcome) :=
        Issue(s.(users := s.users[op.user := User(op.email, op.password, true)]), cfg, op.user, op.drawn, op.now);
      if outcome.Issued? then (t, outcome) else (s, outcome)
  }

  ghost function DoLogin(s: State, cfg: Config, op: Op): (State, Outcome)
    requires op.Login?
  {
    match UserByEmail(s.users, op.email)
    case None => (s, InvalidCredentials)
    case Some(u) =>
      if u !in s.users || s.users[u].password != op.password then (s, InvalidCredentials)
      else if !s.users[u].active then (s, InactiveUser)
      else Issue(s, cfg, u, op.drawn, op.now)
  }

  function DoRefresh(s: State, cfg: Config, op: Op): (State, Outcome)
    requires op.Refresh?
  {
    match Check(s, cfg, op.presented, op.now)
    case Failure(outcome) => (s, outcome)
    case Success(i) =>
      var u := s.tokens[i].user;
      if u !in s.users then (s, InvalidToken)
      else if !s.users[u].active then (s, InactiveUser)
      else
        var (t, outcome) := Issue(s, cfg, u, op.drawn, op.now);
        if outcome.Issued? then (Revoke(t, i, op.now, Some(outcome.token)), outcome) else (s, outcome)
  }

  function DoLogout(s: State, cfg: Config, op: Op): (State, Outcome)
    requires op.Logout?
  {
    match Check(s, cfg, op.presented, op.now)
    case Failure(outcome) => (s, outcome)
    case Success(i) => (Revoke(s, i, op.now, None), LoggedOut)
  }

  function DoChangePassword(s: State, op: Op): (State, Outcome)
    requires op.ChangePassword?
  {
    if op.user !in s.users then (s, UnknownUser)
    else if !s.users[op.user].active then (s, InactiveUser)
    else if s.users[op.user].password != op.current then (s, WrongPassword)
    else if !op.strong then (s, WeakPassword)
    else
      (State(s.users[op.user := s.users[op.user].(password := op.next)], RevokeAll(s.tokens, op.user, op.now)),
       PasswordChanged)
  }

  ghost function Apply(s: State, cfg: Config, op: Op): (State, Outcome) {
    match op
    case Register(_, _, _, _, _, _) => DoRegister(s, cfg, op)
    case Login(_, _, _, _) => DoLogin(s, cfg, op)
    case Refresh(_, _, _) => DoRefresh(s, cfg, op)
    case Logout(_, _) => DoLogout(s, cfg, op)
    case ChangePassword(_, _, _, _, _) => DoChangePassword(s, op)
    case SetActive(u, active) =>
      if u !in s.users then (s, UnknownUser)
      else (s.(users := s.users[u := s.users[u].(active := active)]), Updated)
  }

  ghost function Run(s: State, cfg: Config, ops: seq<Op>): State
    decreases |ops|
  {
    if ops == [] then s else Run(Apply(s, cfg, ops[0]).0, cfg, ops[1..])
  }

  // ----- what every history keeps ----------------------------------------------------------------

  ghost predicate UniqueHashes(tokens: seq<Token>) {
    forall i, j :: 0 <= i < j < |tokens| ==> tokens[i].hash != tokens[j].hash
  }

  /** A link leads from a revoked token to a later token of the same user. */
  predicate LinkOk(tokens: seq<Token>, i: TokenId)
    requires i < |tokens|
  {
    tokens[i].replacedBy.Some? ==>
      && tokens[i].revokedAt.Some?
      && i < tokens[i].replacedBy.value < |tokens|
      && tokens[tokens[i].replacedBy.value].user == tokens[i].user
  }

  ghost predicate LinksOk(tokens: seq<Token>) {
    && (forall i: TokenId :: i < |tokens| ==> LinkOk(tokens, i))
    && (forall i: TokenId, j: TokenId ::
          (i < |tokens| && j < |tokens| && tokens[i].replacedBy.Some? && tokens[i].replacedBy == tokens[j].replacedBy)
          ==> i == j)
  }

  ghost predicate Inv(s: State) {
    && UniqueHashes(s.tokens)
    && LinksOk(s.tokens)
    && (forall i :: 0 <= i < |s.tokens| ==> s.tokens[i].user in s.users)
  }

  lemma IssueKeepsInv(s: State, cfg: Config, user: UserId, drawn: string, now: Instant)
    requires Inv(s) && user in s.users
    ensures Inv(Issue(s, cfg, user, drawn, now).0)
  {
    var t := Issue(s, cfg, user, drawn, now).0;
    forall k: TokenId | k < |t.tokens| ensures LinkOk(t.tokens, k) {
      assert k < |s.tokens| ==> LinkOk(s.tokens, k);
    }
  }

  lemma RotateKeepsInv(s: State, cfg: Config, i: TokenId, drawn: string, now: Instant)
    requires Inv(s) && i < |s.tokens| && s.tokens[i].replacedBy.None? && Find(s.tokens, drawn).None?
    ensures Inv(Revoke(Issue(s, cfg, s.tokens[i].user, drawn, now).0, i, now, Some(|s.tokens|)))
  {
    var t := Issue(s, cfg, s.tokens[i].user, drawn, now).0;
    IssueKeepsInv(s, cfg, s.tokens[i].user, drawn, now);
    var u := Revoke(t, i, now, Some(|s.tokens|));
    assert forall k :: 0 <= k < |t.tokens| && k != i ==> u.tokens[k] == t.tokens[k];
    forall k: TokenId | k < |t.tokens| ensures t.tokens[k].replacedBy != Some(|s.tokens|) {
      assert k < |s.tokens| ==> LinkOk(s.tokens, k) && t.tokens[k] == s.tokens[k];
    }
    forall k: TokenId | k < |u.tokens| ensures LinkOk(u.tokens, k) {
      assert LinkOk(t.tokens, k);
    }
  }

  lemma RevokeKeepsInv(s: State, i: TokenId, now: Instant)
    requires Inv(s) && i < |s.tokens|
    ensures Inv(Revoke(s, i, now, None))
  {
    var u := Revoke(s, i, now, None);
    forall k: TokenId | k < |u.tokens| ensures LinkOk(u.tokens, k) {
      assert LinkOk(s.tokens, k);
    }
  }

  lemma RevokeAllKeepsInv(s: State, user: UserId, now: Instant)
    requires Inv(s)
    ensures Inv(s.(tokens := RevokeAll(s.tokens, user, now)))
  {
    var tokens := RevokeAll(s.tokens, user, now);
    forall k: TokenId | k < |tokens| ensures LinkOk(tokens, k) {
      assert LinkOk(s.tokens, k);
    }
  }

  lemma StepKeepsInv(s: State, cfg: Config, op: Op)
    requires Inv(s)
    ensures Inv(Apply(s, cfg, op).0)
  {
    match op
    case Register(u, email, password, _, drawn, now) =>
      IssueKeepsInv(s.(users := s.users[u := User(email, password, true)]), cfg, u, drawn, now);
    case Login(email, _, drawn, now) =>
      var found := UserByEmail(s.users, email);
      if found.Some? { IssueKeepsInv(s, cfg, found.value, drawn, now); }
    case Refresh(presented, drawn, now) =>
      var found := Check(s, cfg, presented, now);
      if found.Success? && Find(s.tokens, drawn).None? {
        assert LinkOk(s.tokens, found.value);
        RotateKeepsInv(s, cfg, found.value, drawn, now);
      }
    case Logout(presented, now) =>
      var found := Check(s, cfg, presented, now);
      if found.Success? { RevokeKeepsInv(s, found.value, now); }
    case ChangePassword(u, _, _, _, now) =>
      RevokeAllKeepsInv(s, u, now);
    case SetActive(_, _) =>
  }

  /** Replacement links are injective, stay within one user and always point to a later token. */
  lemma {:induction false} HistoriesKeepInv(s: State, cfg: Config, ops: seq<Op>)
    requires Inv(s)
    ensures Inv(Run(s, cfg, ops))
    decreases |ops|
  {
    if ops != [] {
      StepKeepsInv(s, cfg, ops[0]);
      HistoriesKeepInv(Apply(s, cfg, ops[0]).0, cfg, ops[1..]);
    }
  }

  // ----- chains ------------------------------------------------------------------------------------

  /** Following replacement links from `i` one arrives at `j`. */
  predicate Follows(tokens: seq<Token>, i: TokenId, j: TokenId)
    decreases |tokens| - i
  {
    i == j
    || (i < |tokens| && tokens[i].replacedBy.Some? && i < tokens[i].replacedBy.value <= |tokens|
        && Follows(tokens, tokens[i].replacedBy.value, j))
  }

  /** The token no link leads on from. */
  function Tail(tokens: seq<Token>, i: TokenId): TokenId
    decreases |tokens| - i
  {
    if i < |tokens| && tokens[i].replacedBy.Some? && i < tokens[i].replacedBy.value <= |tokens| then
      Tail(tokens, tokens[i].replacedBy.value)
    else i
  }

  /** A chain stays within one user and ends in its tail; everything before the tail is revoked. */
  lemma {:induction false} ChainEndsInTail(tokens: seq<Token>, i: TokenId, j: TokenId)
    requires LinksOk(tokens) && i < |tokens| && Follows(tokens, i, j)
    ensures i <= j < |tokens| && tokens[j].user == tokens[i].user
    ensures Tail(tokens, i) == Tail(tokens, j)
    ensures i != j ==> tokens[i].revokedAt.Some?
    decreases |tokens| - i
  {
    assert LinkOk(tokens, i);
    if i != j {
      ChainEndsInTail(tokens, tokens[i].replacedBy.value, j);
    }
  }

  lemma {:induction false} TailFollows(tokens: seq<Token>, i: TokenId)
    requires LinksOk(tokens) && i < |tokens|
    ensures Follows(tokens, i, Tail(tokens, i)) && Tail(tokens, i) < |tokens|
    ensures tokens[Tail(tokens, i)].replacedBy.None?
    decreases |tokens| - i
  {
    assert LinkOk(tokens, i);
    if tokens[i].replacedBy.Some? {
      TailFollows(tokens, tokens[i].replacedBy.value);
    }
  }

  /** Two ways into the same token lie on one path: chains never merge. */
  lemma {:induction false} ChainsNeverMerge(tokens: seq<Token>, i: TokenId, j: TokenId, end: TokenId)
    requires LinksOk(tokens) && i < |tokens| && j < |tokens|
    requires Follows(tokens, i, end) && Follows(tokens, j, end)
    ensures Follows(tokens, i, j) || Follows(tokens, j, i)
    decreases |tokens| - i
  {
    assert LinkOk(tokens, i);
    if i != end {
      var next := tokens[i].replacedBy.value;
      ChainsNeverMerge(tokens, next, j, end);
      if !Follows(tokens, next, j) {
        LastStep(tokens, j, next);
      }
    }
  }

  /** A path that arrives at `end` from elsewhere arrives through a link; links are injective. */
  lemma {:induction false} LastStep(tokens: seq<Token>, j: TokenId, end: TokenId)
    requires LinksOk(tokens) && j < |tokens| && Follows(tokens, j, end)
    ensures j == end || exists k: TokenId :: k < |tokens| && tokens[k].replacedBy == Some(end) && Follows(tokens, j, k)
    decreases |tokens| - j
  {
    assert LinkOk(tokens, j);
    if j != end {
      var next := tokens[j].replacedBy.value;
      LastStep(tokens, next, end);
      if next == end {
        assert Follows(tokens, j, j);
      } else {
        var k: TokenId :| k < |tokens| && tokens[k].replacedBy == Some(end) && Follows(tokens, next, k);
        assert Follows(tokens, j, k);
      }
    }
  }

  /**
    Two tokens are on the same chain exactly when they have the same tail, and a chain holds at most
    one token that is not revoked, which is its tail.
    */
  lemma ChainsAreDisjointPaths(s: State, i: TokenId, j: TokenId)
    requires Inv(s) && i < |s.tokens| && j < |s.tokens|
    ensures Tail(s.tokens, i) == Tail(s.tokens, j) <==> Follows(s.tokens, i, j) || Follows(s.tokens, j, i)
    ensures Tail(s.tokens, i) == Tail(s.tokens, j) ==> s.tokens[i].user == s.tokens[j].user
    ensures s.tokens[i].revokedAt.None? ==> Tail(s.tokens, i) == i
    ensures s.tokens[i].revokedAt.None? && s.tokens[j].revokedAt.None? && Tail(s.tokens, i) == Tail(s.tokens, j) ==>
      i == j
  {
    TailFollows(s.tokens, i);
    TailFollows(s.tokens, j);
    ChainEndsInTail(s.tokens, i, Tail(s.tokens, i));
    ChainEndsInTail(s.tokens, j, Tail(s.tokens, j));
    if Tail(s.tokens, i) == Tail(s.tokens, j) {
      ChainsNeverMerge(s.tokens, i, j, Tail(s.tokens, i));
    }
    if Follows(s.tokens, i, j) { ChainEndsInTail(s.tokens, i, j); }
    if Follows(s.tokens, j, i) { ChainEndsInTail(s.tokens, j, i); }
  }

  /** In every history from the empty store: the chain statements above. */
  lemma ChainsOfEveryHistory(cfg: Config, ops: seq<Op>, i: TokenId, j: TokenId)
    requires i < |Run(INIT, cfg, ops).tokens| && j < |Run(INIT, cfg, ops).tokens|
    ensures var tokens := Run(INIT, cfg, ops).tokens;
      && (Tail(tokens, i) == Tail(tokens, j) <==> Follows(tokens, i, j) || Follows(tokens, j, i))
      && (Tail(tokens, i) == Tail(tokens, j) ==> tokens[i].user == tokens[j].user)
      && (tokens[i].revokedAt.None? && tokens[j].revokedAt.None? && Tail(tokens, i) == Tail(tokens, j) ==> i == j)
  {
    HistoriesKeepInv(INIT, cfg, ops);
    ChainsAreDisjointPaths(Run(INIT, cfg, ops), i, j);
  }

  // ----- revoked tokens -------------------------------------------------------------------------------

  lemma RevokedRowStep(s: State, cfg: Config, op: Op, i: TokenId)
    requires i < |s.tokens| && s.tokens[i].revokedAt.Some?
    ensures i < |Apply(s, cfg, op).0.tokens| && Apply(s, cfg, op).0.tokens[i] == s.tokens[i]
  {
  }

  /** Once revoked, a row never changes again. */
  lemma {:induction false} RevokedRowsAreFrozen(s: State, cfg: Config, ops: seq<Op>, i: TokenId)
    requires i < |s.tokens| && s.tokens[i].revokedAt.Some?
    ensures i < |Run(s, cfg, ops).tokens| && Run(s, cfg, ops).tokens[i] == s.tokens[i]
    decreases |ops|
  {
    if ops != [] {
      RevokedRowStep(s, cfg, ops[0], i);
      RevokedRowsAreFrozen(Apply(s, cfg, ops[0]).0, cfg, ops[1..], i);
    }
  }

  predicate Presents(op: Op, cfg: Config, hash: string) {
    (op.Refresh? || op.Logout?) && op.presented != "" && cfg.hash(op.presented) == hash
  }

  /** Whatever happens after a token was revoked, presenting it is answered "revoked" and changes nothing. */
  lemma RevokedIsNeverAccepted(s: State, cfg: Config, ops: seq<Op>, i: TokenId, op: Op)
    requires Inv(s) && i < |s.tokens| && s.tokens[i].revokedAt.Some? && Presents(op, cfg, s.tokens[i].hash)
    ensures Apply(Run(s, cfg, ops), cfg, op) == (Run(s, cfg, ops), RevokedToken)
  {
    HistoriesKeepInv(s, cfg, ops);
    RevokedRowsAreFrozen(s, cfg, ops, i);
    var t := Run(s, cfg, ops);
    FindUnique(t.tokens, i);
  }

  lemma FindUnique(tokens: seq<Token>, i: TokenId)
    requires UniqueHashes(tokens) && i < |tokens|
    ensures Find(tokens, tokens[i].hash) == Some(i)
  {
    var found := Find(tokens, tokens[i].hash);
    assert found.Some?;
    if found.value < i || i < found.value {
      assert false;
    }
  }

  predicate Accepted(outcome: Outcome) {
    outcome.Issued? || outcome.LoggedOut?
  }

  /** How often presenting this hash was accepted. */
  ghost function Acceptances(s: State, cfg: Config, ops: seq<Op>, hash: string): nat
    decreases |ops|
  {
    if ops == [] then 0
    else
      var (t, outcome) := Apply(s, cfg, ops[0]);
      (if Presents(ops[0], cfg, hash) && Accepted(outcome) then 1 else 0) + Acceptances(t, cfg, ops[1..], hash)
  }

  ghost predicate Spent(s: State, hash: string) {
    exists i: TokenId :: i < |s.tokens| && s.tokens[i].hash == hash && s.tokens[i].revokedAt.Some?
  }

  lemma AcceptanceSpends(s: State, cfg: Config, op: Op, hash: string)
    requires Inv(s)
    ensures Spent(s, hash) ==> Spent(Apply(s, cfg, op).0, hash)
    ensures Presents(op, cfg, hash) && Accepted(Apply(s, cfg, op).1) ==>
      !Spent(s, hash) && Spent(Apply(s, cfg, op).0, hash)
  {
    var t := Apply(s, cfg, op).0;
    if Spent(s, hash) {
      var i: TokenId :| i < |s.tokens| && s.tokens[i].hash == hash && s.tokens[i].revokedAt.Some?;
      RevokedRowStep(s, cfg, op, i);
      FindUnique(s.tokens, i);
    }
    if Presents(op, cfg, hash) && Accepted(Apply(s, cfg, op).1) {
      var i := Check(s, cfg, op.presented, op.now).value;
      assert t.tokens[i].hash == hash && t.tokens[i].revokedAt.Some?;
    }
  }

  /** Over any history a refresh token is accepted at most once, for refresh and logout together. */
  lemma {:induction false} AcceptedAtMostOnce(s: State, cfg: Config, ops: seq<Op>, hash: string)
    requires Inv(s)
    ensures Acceptances(s, cfg, ops, hash) <= if Spent(s, hash) then 0 else 1
    decreases |ops|
  {
    if ops != [] {
      StepKeepsInv(s, cfg, ops[0]);
      AcceptanceSpends(s, cfg, ops[0], hash);
      AcceptedAtMostOnce(Apply(s, cfg, ops[0]).0, cfg, ops[1..], hash);
    }
  }

  /** A stored token that a refresh accepts at `now`. */
  predicate Refreshable(s: State, i: TokenId, now: Instant)
    requires i < |s.tokens|
  {
    && s.tokens[i].revokedAt.None?
    && now < s.tokens[i].expiresAt
    && s.tokens[i].user in s.users && s.users[s.tokens[i].user].active
  }

  /**
    A refresh is accepted exactly for a stored, unrevoked, unexpired token of an active user, when
    the newly drawn hash is not taken. It revokes that token, links it to one new live token of the
    same user, and changes no other row; otherwise nothing changes at all.
    */
  lemma RefreshIsExact(s: State, cfg: Config, presented: string, drawn: string, now: Instant, i: TokenId)
    requires Inv(s) && i < |s.tokens| && s.tokens[i].hash == cfg.hash(presented)
    ensures var (t, outcome) := Apply(s, cfg, Refresh(presented, drawn, now));
      && (Accepted(outcome) <==>
            presented != "" && Refreshable(s, i, now) && forall j :: 0 <= j < |s.tokens| ==> s.tokens[j].hash != drawn)
      && (!Accepted(outcome) ==> t == s)
      && (Accepted(outcome) ==>
            && t.users == s.users && |t.tokens| == |s.tokens| + 1
            && t.tokens[i] == s.tokens[i].(revokedAt := Some(now), replacedBy := Some(|s.tokens|))
            && t.tokens[|s.tokens|] == Token(s.tokens[i].user, drawn, now + cfg.lifetime, None, None)
            && forall j :: 0 <= j < |s.tokens| && j != i ==> t.tokens[j] == s.tokens[j])
  {
    FindUnique(s.tokens, i);
  }

  /** A token that was never stored is refused and changes nothing. */
  lemma UnknownTokensAreRefused(s: State, cfg: Config, op: Op)
    requires op.Refresh? || op.Logout?
    requires op.presented == "" || forall i :: 0 <= i < |s.tokens| ==> s.tokens[i].hash != cfg.hash(op.presented)
    ensures Apply(s, cfg, op) == (s, InvalidToken)
  {
  }

  /** Why a presented, stored token is refused: the first failing check names the error. */
  lemma RefusalsAreExact(s: State, cfg: Config, presented: string, drawn: string, now: Instant, i: TokenId)
    requires Inv(s) && i < |s.tokens| && s.tokens[i].hash == cfg.hash(presented) && presented != ""
    ensures var t, taken := s.tokens[i], exists j :: 0 <= j < |s.tokens| && s.tokens[j].hash == drawn;
      && Apply(s, cfg, Refresh(presented, drawn, now)).1
         == (if t.revokedAt.Some? then RevokedToken
             else if now >= t.expiresAt then ExpiredToken
             else if t.user !in s.users then InvalidToken
             else if !s.users[t.user].active then InactiveUser
             else if taken then StoreRefused
             else Issued(|s.tokens|))
      && Apply(s, cfg, Logout(presented, now)).1
         == (if t.revokedAt.Some? then RevokedToken else if now >= t.expiresAt then ExpiredToken else LoggedOut)
  {
    FindUnique(s.tokens, i);
  }

  /** A logout revokes the presented token, links it to nothing, and touches no other row. */
  lemma LogoutIsExact(s: State, cfg: Config, presented: string, now: Instant, i: TokenId)
    requires Inv(s) && i < |s.tokens| && s.tokens[i].hash == cfg.hash(presented)
    ensures var (t, outcome) := Apply(s, cfg, Logout(presented, now));
      && (Accepted(outcome) <==> presented != "" && s.tokens[i].revokedAt.None? && now < s.tokens[i].expiresAt)
      && t == if !Accepted(outcome) then s
              else s.(tokens := s.tokens[i := s.tokens[i].(revokedAt := Some(now), replacedBy := None)])
  {
    FindUnique(s.tokens, i);
  }

  // ----- passwords ----------------------------------------------------------------------------------------

  /** The unique constraint on users.email. */
  ghost predicate UniqueEmails(users: map<UserId, User>) {
    forall u, v :: u in users && v in users && users[u].email == users[v].email ==> u == v
  }

  lemma {:induction false} HistoriesKeepEmails(s: State, cfg: Config, ops: seq<Op>)
    requires UniqueEmails(s.users)
    ensures UniqueEmails(Run(s, cfg, ops).users)
    decreases |ops|
  {
    if ops != [] {
      EmailsStay(s, cfg, ops[0]);
      HistoriesKeepEmails(Apply(s, cfg, ops[0]).0, cfg, ops[1..]);
    }
  }

  lemma EmailsStay(s: State, cfg: Config, op: Op)
    requires UniqueEmails(s.users)
    ensures UniqueEmails(Apply(s, cfg, op).0.users)
  {
  }

  predicate Taken(s: State, hash: string) {
    exists j :: 0 <= j < |s.tokens| && s.tokens[j].hash == hash
  }

  /** A login with a known e-mail address: the password decides, then activity, then the draw. */
  lemma LoginIsExact(s: State, cfg: Config, email: string, password: string, drawn: string, now: Instant, u: UserId)
    requires UniqueEmails(s.users) && u in s.users && s.users[u].email == email
    ensures Apply(s, cfg, Login(email, password, drawn, now))
         == if password != s.users[u].password then (s, InvalidCredentials)
            else if !s.users[u].active then (s, InactiveUser)
            else if Taken(s, drawn) then (s, StoreRefused)
            else (s.(tokens := s.tokens + [Token(u, drawn, now + cfg.lifetime, None, None)]), Issued(|s.tokens|))
  {
    assert UserByEmail(s.users, email) == Some(u);
  }

  /** A login succeeds exactly for the address and the password of an active user, and a new hash. */
  lemma LoginNeedsPassword(s: State, cfg: Config, email: string, password: string, drawn: string, now: Instant)
    requires UniqueEmails(s.users)
    ensures Apply(s, cfg, Login(email, password, drawn, now)).1.Issued? <==>
      && !Taken(s, drawn)
      && exists u :: u in s.users && s.users[u].email == email && s.users[u].password == password && s.users[u].active
    ensures !Apply(s, cfg, Login(email, password, drawn, now)).1.Issued? ==>
      Apply(s, cfg, Login(email, password, drawn, now)).0 == s
  {
    if u :| u in s.users && s.users[u].email == email {
      LoginIsExact(s, cfg, email, password, drawn, now, u);
    }
  }

  /** Only the current password lets a user set a strong new one; then exactly their own live tokens end. */
  lemma ChangePasswordIsExact(
    s: State, cfg: Config, user: UserId, current: string, next: string, strong: bool, now: Instant)
    ensures var (t, outcome) := Apply(s, cfg, ChangePassword(user, current, next, strong, now));
      && (outcome == PasswordChanged <==>
            user in s.users && s.users[user].active && s.users[user].password == current && strong)
      && (outcome != PasswordChanged ==> t == s)
      && (outcome == PasswordChanged ==>
            && t.users == s.users[user := s.users[user].(password := next)]
            && |t.tokens| == |s.tokens|
            && forall i :: 0 <= i < |s.tokens| ==>
                 t.tokens[i] == if s.tokens[i].user == user && s.tokens[i].revokedAt.None?
                                then s.tokens[i].(revokedAt := Some(now)) else s.tokens[i])
  {
  }

  /** After a change the new password signs in, and the old one, if different, does not. */
  lemma ChangedPasswordSignsIn(
    s: State, cfg: Config, user: UserId, current: string, next: string, now: Instant, drawn: string, later: Instant)
    requires UniqueEmails(s.users) && !Taken(s, drawn)
    requires Apply(s, cfg, ChangePassword(user, current, next, true, now)).1 == PasswordChanged
    ensures var t, email := Apply(s, cfg, ChangePassword(user, current, next, true, now)).0, s.users[user].email;
      && Apply(t, cfg, Login(email, next, drawn, later)).1 == Issued(|t.tokens|)
      && (current != next ==> Apply(t, cfg, Login(email, current, drawn, later)) == (t, InvalidCredentials))
  {
    var op := ChangePassword(user, current, next, true, now);
    var t := Apply(s, cfg, op).0;
    ChangePasswordIsExact(s, cfg, user, current, next, true, now);
    EmailsStay(s, cfg, op);
    assert forall i :: 0 <= i < |t.tokens| ==> t.tokens[i].hash == s.tokens[i].hash;
    LoginIsExact(t, cfg, s.users[user].email, next, drawn, later, user);
    LoginIsExact(t, cfg, s.users[user].email, current, drawn, later, user);
  }

  /** A registration needs a strong password, a new address and a new hash; it adds one active user and one token. */
  lemma RegisterIsExact(
    s: State, cfg: Config, user: UserId, email: string, password: string, strong: bool, drawn: string, now: Instant)
    ensures var (t, outcome) := Apply(s, cfg, Register(user, email, password, strong, drawn, now));
      && (outcome.Issued? <==>
            && strong && user !in s.users && !Taken(s, drawn)
            && forall u :: u in s.users ==> s.users[u].email != email)
      && t == if !outcome.Issued? then s
              else State(
                s.users[user := User(email, password, true)],
                s.tokens + [Token(user, drawn, now + cfg.lifetime, None, None)])
  {
  }

  /** The registered password signs in. */
  lemma RegisteredPasswordSignsIn(
    s: State, cfg: Config, user: UserId, email: string, password: string, strong: bool, drawn: string, now: Instant,
    nextDrawn: string, later: Instant, attempt: string)
    requires UniqueEmails(s.users) && !Taken(s, nextDrawn) && nextDrawn != drawn
    requires Apply(s, cfg, Register(user, email, password, strong, drawn, now)).1.Issued?
    ensures var t := Apply(s, cfg, Register(user, email, password, strong, drawn, now)).0;
      Apply(t, cfg, Login(email, attempt, nextDrawn, later)).1
      == if attempt == password then Issued(|t.tokens|) else InvalidCredentials
  {
    var op := Register(user, email, password, strong, drawn, now);
    var t := Apply(s, cfg, op).0;
    RegisterIsExact(s, cfg, user, email, password, strong, drawn, now);
    EmailsStay(s, cfg, op);
    assert !Taken(t, nextDrawn);
    LoginIsExact(t, cfg, email, attempt, nextDrawn, later, user);
  }

  // ----- sessions ----------------------------------------------------------------------------------------

  function Live(tokens: seq<Token>, user: UserId): nat {
    if tokens == [] then 0
    else
      var t := tokens[|tokens| - 1];
      Live(tokens[..|tokens| - 1], user) + if t.user == user && t.revokedAt.None? then 1 else 0
  }

  lemma {:induction false} LiveAfterRevoke(tokens: seq<Token>, i: TokenId, t: Token, user: UserId)
    requires i < |tokens| && tokens[i].revokedAt.None? && t.revokedAt.Some? && t.user == tokens[i].user
    ensures Live(tokens[i := t], user) + (if t.user == user then 1 else 0) == Live(tokens, user)
  {
    var n := |tokens| - 1;
    if i == n {
      assert tokens[i := t][..n] == tokens[..n];
    } else {
      assert tokens[i := t][..n] == tokens[..n][i := t];
      LiveAfterRevoke(tokens[..n], i, t, user);
    }
  }

  lemma {:induction false} LiveAfterRevokeAll(tokens: seq<Token>, revoked: UserId, now: Instant, user: UserId)
    ensures Live(RevokeAll(tokens, revoked, now), user) == if user == revoked then 0 else Live(tokens, user)
  {
    if tokens != [] {
      var n := |tokens| - 1;
      assert RevokeAll(tokens, revoked, now)[..n] == RevokeAll(tokens[..n], revoked, now);
      LiveAfterRevokeAll(tokens[..n], revoked, now, user);
    }
  }

  lemma LiveAfterIssue(s: State, cfg: Config, owner: UserId, drawn: string, now: Instant, user: UserId)
    ensures var (t, outcome) := Issue(s, cfg, owner, drawn, now);
      Live(t.tokens, user) == Live(s.tokens, user) + if outcome.Issued? && owner == user then 1 else 0
  {
    var t := Issue(s, cfg, owner, drawn, now).0;
    if Find(s.tokens, drawn).None? { assert t.tokens[..|t.tokens| - 1] == s.tokens; }
  }

  predicate SignsIn(op: Op) {
    op.Register? || op.Login?
  }

  lemma LiveAfterSignIn(s: State, cfg: Config, op: Op, user: UserId)
    requires SignsIn(op)
    ensures var (t, outcome) := Apply(s, cfg, op);
      Live(t.tokens, user) <= Live(s.tokens, user)
        + if outcome.Issued? && t.tokens[outcome.token].user == user then 1 else 0
  {
    match op
    case Register(u, email, password, _, drawn, now) =>
      LiveAfterIssue(s.(users := s.users[u := User(email, password, true)]), cfg, u, drawn, now, user);
    case Login(email, _, drawn, now) =>
      var found := UserByEmail(s.users, email);
      if found.Some? { LiveAfterIssue(s, cfg, found.value, drawn, now, user); }
  }

  lemma LiveAfterRefresh(s: State, cfg: Config, op: Op, user: UserId)
    requires op.Refresh?
    ensures Live(DoRefresh(s, cfg, op).0.tokens, user) == Live(s.tokens, user)
  {
    var found := Check(s, cfg, op.presented, op.now);
    if found.Success? && Find(s.tokens, op.drawn).None? {
      var i := found.value;
      var t := Issue(s, cfg, s.tokens[i].user, op.drawn, op.now).0;
      LiveAfterIssue(s, cfg, s.tokens[i].user, op.drawn, op.now, user);
      LiveAfterRevoke(t.tokens, i, t.tokens[i].(revokedAt := Some(op.now), replacedBy := Some(|s.tokens|)), user);
    }
  }

  lemma LiveAfterLogout(s: State, cfg: Config, op: Op, user: UserId)
    requires op.Logout?
    ensures Live(DoLogout(s, cfg, op).0.tokens, user) <= Live(s.tokens, user)
  {
    var found := Check(s, cfg, op.presented, op.now);
    if found.Success? {
      var i := found.value;
      LiveAfterRevoke(s.tokens, i, s.tokens[i].(revokedAt := Some(op.now), replacedBy := None), user);
    }
  }

  /**
    What one transaction does to a user's count of live tokens: a sign-in adds at most one, a refresh
    keeps the number, a password change ends all of that user's and nobody else's.
    */
  lemma LiveStep(s: State, cfg: Config, op: Op, user: UserId)
    ensures var (t, outcome) := Apply(s, cfg, op);
      Live(t.tokens, user) <= Live(s.tokens, user)
        + if SignsIn(op) && outcome.Issued? && t.tokens[outcome.token].user == user then 1 else 0
    ensures var (t, outcome) := Apply(s, cfg, op);
      && (op.Refresh? ==> Live(t.tokens, user) == Live(s.tokens, user))
      && (op.ChangePassword? && outcome == PasswordChanged ==>
            Live(t.tokens, user) == if op.user == user then 0 else Live(s.tokens, user))
  {
    hide DoRegister, DoLogin, DoRefresh, DoLogout;
    if SignsIn(op) {
      LiveAfterSignIn(s, cfg, op, user);
    } else if op.Refresh? {
      LiveAfterRefresh(s, cfg, op, user);
    } else if op.Logout? {
      LiveAfterLogout(s, cfg, op, user);
    } else if op.ChangePassword? {
      LiveAfterRevokeAll(s.tokens, op.user, op.now, user);
    }
  }

  /** Sign-ins of a user that succeeded. */
  ghost function SignIns(s: State, cfg: Config, ops: seq<Op>, user: UserId): nat
    decreases |ops|
  {
    if ops == [] then 0
    else
      var (t, outcome) := Apply(s, cfg, ops[0]);
      (if SignsIn(ops[0]) && outcome.Issued? && outcome.token < |t.tokens| && t.tokens[outcome.token].user == user
       then 1 else 0)
      + SignIns(t, cfg, ops[1..], user)
  }

  /** A user never has more live tokens than sign-ins: refreshing does not multiply them. */
  lemma {:induction false} NoMoreSessionsThanSignIns(s: State, cfg: Config, ops: seq<Op>, user: UserId)
    ensures Live(Run(s, cfg, ops).tokens, user) <= Live(s.tokens, user) + SignIns(s, cfg, ops, user)
    decreases |ops|
  {
    if ops != [] {
      LiveStep(s, cfg, ops[0], user);
      NoMoreSessionsThanSignIns(Apply(s, cfg, ops[0]).0, cfg, ops[1..], user);
    }
  }
}
