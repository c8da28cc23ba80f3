/** The authentication service and its repository: transactions that change stored rows in place. */
module AuthService {
  import opened Wrappers
  import opened RefreshTokens

  class AuthStore {
    var users: map<UserId, User>
    var tokens: seq<Token>
    const cfg: Config

    ghost function Now(): State
      reads this
    {
      State(users, tokens)
    }

    ghost predicate Valid()
      reads this
    {
      Inv(Now()) && UniqueEmails(users)
    }

    constructor (cfg: Config)
      ensures this.cfg == cfg && Now() == INIT && Valid()
    {
      this.cfg, users, tokens := cfg, map[], [];
    }

    // ----- repository -------------------------------------------------------------------------

    method GetUserByEmail(email: string) returns (found: Option<UserId>)
      requires UniqueEmails(users)
      ensures found == UserByEmail(users, email)
    {
      if u: UserId :| u in users && users[u].email == email {
        return Some(u);
      }
      return None;
    }

    /** The flush fails on the unique constraint on token_hash. */
    method CreateRefreshToken(user: UserId, hash: string, expiresAt: Instant) returns (created: Option<TokenId>)
      modifies this`tokens
      ensures created == if Find(old(tokens), hash).Some? then None else Some(|old(tokens)|)
      ensures tokens == if created.None? then old(tokens) else old(tokens) + [Token(user, hash, expiresAt, None, None)]
    {
      if Find(tokens, hash).Some? {
        return None;
      }
      created := Some(|tokens|);
      tokens := tokens + [Token(user, hash, expiresAt, None, None)];
    }

    method RevokeRefreshToken(i: TokenId, at: Instant, replacedBy: Option<TokenId>)
      requires i < |tokens|
      modifies this`tokens
      ensures tokens == old(tokens)[i := old(tokens[i]).(revokedAt := Some(at), replacedBy := replacedBy)]
    {
      tokens := tokens[i := tokens[i].(revokedAt := Some(at))];
      tokens := tokens[i := tokens[i].(replacedBy := replacedBy)];
    }

    /** Insert first, then point the old row at the new one. */
    method RotateRefreshToken(i: TokenId, hash: string, expiresAt: Instant, at: Instant)
      returns (created: Option<TokenId>)
      requires i < |tokens|
      modifies this`tokens
      ensures created == if Find(old(tokens), hash).Some? then None else Some(|old(tokens)|)
      ensures created.None? ==> tokens == old(tokens)
      ensures created.Some? ==>
        tokens == (old(tokens) + [Token(old(tokens[i]).user, hash, expiresAt, None, None)])[
                    i := old(tokens[i]).(revokedAt := Some(at), replacedBy := created)]
    {
      created := CreateRefreshToken(tokens[i].user, hash, expiresAt);
      if created.Some? {
        RevokeRefreshToken(i, at, created);
      }
    }

    /** The bulk update of a user's rows that are not revoked yet. */
    method RevokeUserRefreshTokens(user: UserId, at: Instant)
      modifies this`tokens
      ensures tokens == RevokeAll(old(tokens), user, at)
    {
      for i := 0 to |tokens|
        invariant |tokens| == |old(tokens)|
        invariant forall k :: 0 <= k < i ==> tokens[k] == RevokeIfLive(old(tokens)[k], user, at)
        invariant forall k :: i <= k < |tokens| ==> tokens[k] == old(tokens)[k]
      {
        if tokens[i].user == user && tokens[i].revokedAt.None? {
          tokens := tokens[i := tokens[i].(revokedAt := Some(at))];
        }
      }
    }

    method GetValidRefreshToken(presented: string, now: Instant) returns (found: Result<TokenId, Outcome>)
      ensures found == Check(Now(), cfg, presented, now)
    {
      if presented == "" {
        return Failure(InvalidToken);
      }
      var stored := Find(tokens, cfg.hash(presented));
      if stored.None? {
        return Failure(InvalidToken);
      }
      if tokens[stored.value].revokedAt.Some? {
        return Failure(RevokedToken);
      }
      if tokens[stored.value].expiresAt <= now {
        return Failure(ExpiredToken);
      }
      return Success(stored.value);
    }

    // ----- service ----------------------------------------------------------------------------

    method RegisterUser(user: UserId, email: string, password: string, strong: bool, drawn: string, now: Instant)
      returns (outcome: Outcome)
      requires Valid()
      modifies this
      ensures Valid()
      ensures (Now(), outcome) == Apply(old(Now()), cfg, Register(user, email, password, strong, drawn, now))
    {
      StepKeepsInv(Now(), cfg, Register(user, email, password, strong, drawn, now));
      if !strong {
        return WeakPassword;
      }
      var existing := GetUserByEmail(email);
      if existing.Some? {
        return DuplicateEmail;
      }
      if user in users {
        return StoreRefused;
      }
      var savedUsers := users;
      users := users[user := User(email, password, true)];
      var created := CreateRefreshToken(user, drawn, now + cfg.lifetime);
      if created.None? {
        users := savedUsers;
        return StoreRefused;
      }
      return Issued(created.value);
    }

    method LoginUser(email: string, password: string, drawn: string, now: Instant) returns (outcome: Outcome)
      requires Valid()
      modifies this`tokens
      ensures Valid()
      ensures (Now(), outcome) == Apply(old(Now()), cfg, Login(email, password, drawn, now))
    {
      StepKeepsInv(Now(), cfg, Login(email, password, drawn, now));
      var user := GetUserByEmail(email);
      if user.None? || users[user.value].password != password {
        return InvalidCredentials;
      }
      if !users[user.value].active {
        return InactiveUser;
      }
      var created := CreateRefreshToken(user.value, drawn, now + cfg.lifetime);
      outcome := if created.Some? then Issued(created.value) else StoreRefused;
    }

    method RefreshToken(presented: string, drawn: string, now: Instant) returns (outcome: Outcome)
      requires Valid()
      modifies this`tokens
      ensures Valid()
      ensures (Now(), outcome) == Apply(old(Now()), cfg, Refresh(presented, drawn, now))
    {
      StepKeepsInv(Now(), cfg, Refresh(presented, drawn, now));
      var found := GetValidRefreshToken(presented, now);
      if found.Failure? {
        return found.error;
      }
      var user := tokens[found.value].user;
      if user !in users {
        return InvalidToken;
      }
      if !users[user].active {
        return InactiveUser;
      }
      var created := RotateRefreshToken(found.value, drawn, now + cfg.lifetime, now);
      outcome := if created.Some? then Issued(created.value) else StoreRefused;
    }

    method LogoutUser(presented: string, now: Instant) returns (outcome: Outcome)
      requires Valid()
      modifies this`tokens
      ensures Valid()
      ensures (Now(), outcome) == Apply(old(Now()), cfg, Logout(presented, now))
    {
      StepKeepsInv(Now(), cfg, Logout(presented, now));
      var found := GetValidRefreshToken(presented, now);
      if found.Failure? {
        return found.error;
      }
      RevokeRefreshToken(found.value, now, None);
      return LoggedOut;
    }

    method ChangeUserPassword(user: UserId, current: string, next: string, strong: bool, now: Instant)
      returns (outcome: Outcome)
      requires Valid()
      modifies this
      ensures Valid()
      ensures (Now(), outcome) == Apply(old(Now()), cfg, ChangePassword(user, current, next, strong, now))
    {
      StepKeepsInv(Now(), cfg, ChangePassword(user, current, next, strong, now));
      if user !in users {
        return UnknownUser;
      }
      if !users[user].active {
        return InactiveUser;
      }
      if users[user].password != current {
        return WrongPassword;
      }
      if !strong {
        return WeakPassword;
      }
      users := users[user := users[user].(password := next)];
      RevokeUserRefreshTokens(user, now);
      return PasswordChanged;
    }
  }
}
