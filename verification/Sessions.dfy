/** Refresh tokens: issuing, exchanging, revoking one or all, password change, and the clean-up job. */
module Sessions {
  import opened Tables
  import opened Wrappers

  const DAY: int := 86400
  const REFRESH_TOKEN_EXPIRE_DAYS: int := 7
  const REFRESH_TOKEN_REMEMBER_DAYS: int := 30

  datatype Account = Account(active: bool, deleted: bool, hasPassword: bool)

  // A row of `refresh_tokens`; `user` is the account's row number.
  datatype Token = Token(user: nat, hash: string, expires: int, revoked: Option<int>, deleted: bool)

  datatype RefreshResult = Granted(user: nat) | InvalidToken | InactiveUser
  datatype ChangeResult = Changed | OAuthOnly | WrongPassword

  function HasHash(hash: string): Token -> bool {
    (t: Token) => t.hash == hash
  }

  function FindHash(tokens: seq<Token>, hash: string): (r: Option<nat>)
    ensures r.Some? ==> r.value < |tokens| && tokens[r.value].hash == hash
    ensures r.None? ==> forall i :: 0 <= i < |tokens| ==> tokens[i].hash != hash
  {
    var r := Find(tokens, HasHash(hash));
    assert r.None? ==> forall i :: 0 <= i < |tokens| ==> !HasHash(hash)(tokens[i]);
    r
  }

  function Lifetime(remember: bool): int {
    (if remember then REFRESH_TOKEN_REMEMBER_DAYS else REFRESH_TOKEN_EXPIRE_DAYS) * DAY
  }

  predicate Usable(t: Token, now: int) {
    !t.deleted && t.revoked.None? && now < t.expires
  }

  predicate Open(a: Account) {
    a.active && !a.deleted
  }

  // ---------- The table's updates ----------

  function Issued(tokens: seq<Token>, user: nat, hash: string, remember: bool, now: int): seq<Token> {
    if FindHash(tokens, hash).Some? then tokens
    else tokens + [Token(user, hash, now + Lifetime(remember), None, false)]
  }

  function RevokeRow(t: Token, now: int): Token {
    if t.revoked.None? then t.(revoked := Some(now)) else t
  }

  function RevokedOne(tokens: seq<Token>, hash: string, now: int): seq<Token> {
    seq(|tokens|, i requires 0 <= i < |tokens| =>
      if tokens[i].hash == hash then RevokeRow(tokens[i], now) else tokens[i])
  }

  function RevokedAll(tokens: seq<Token>, user: nat, now: int): seq<Token> {
    seq(|tokens|, i requires 0 <= i < |tokens| =>
      if tokens[i].user == user then RevokeRow(tokens[i], now) else tokens[i])
  }

  function CleanRow(t: Token, now: int): Token {
    if !t.deleted && (t.expires < now || t.revoked.Some?) then t.(deleted := true) else t
  }

  function Cleaned(tokens: seq<Token>, now: int): seq<Token> {
    seq(|tokens|, i requires 0 <= i < |tokens| => CleanRow(tokens[i], now))
  }

  // How many rows an UPDATE of the table touched.
  function RowCount(before: seq<Token>, after: seq<Token>): nat
    requires |before| == |after|
  {
    |set i: nat | i < |before| && before[i] != after[i]|
  }

  function Exchange(accounts: seq<Account>, tokens: seq<Token>, hash: string, now: int): RefreshResult {
    var found := FindHash(tokens, hash);
    if found.None? || !Usable(tokens[found.value], now) then InvalidToken
    else
      var user := tokens[found.value].user;
      if user < |accounts| && Open(accounts[user]) then Granted(user) else InactiveUser
  }

  ghost predicate HashesUnique(tokens: seq<Token>) {
    forall i, j :: 0 <= i < j < |tokens| ==> tokens[i].hash != tokens[j].hash
  }

  predicate OwnersExist(accounts: seq<Account>, tokens: seq<Token>) {
    forall i :: 0 <= i < |tokens| ==> tokens[i].user < |accounts|
  }

  class AuthService {
    var accounts: seq<Account>
    var tokens: seq<Token>

    ghost predicate Valid()
      reads this
    {
      HashesUnique(tokens) && OwnersExist(accounts, tokens)
    }

    /** The unique column on the hash refuses a second row with the same one. */
    method CreateTokenPair(user: nat, hash: string, remember: bool, now: int) returns (created: bool)
      requires Valid() && user < |accounts|
      modifies `tokens
      ensures Valid() && tokens == Issued(old(tokens), user, hash, remember, now)
      ensures created <==> forall i :: 0 <= i < |old(tokens)| ==> old(tokens)[i].hash != hash
      ensures created && Open(accounts[user]) ==>
                forall later :: Exchange(accounts, tokens, hash, later) == Granted(user) <==>
                                later < now + (if remember then 30 else 7) * 86400
    {
      created := FindHash(tokens, hash).None?;
      if created {
        tokens := tokens + [Token(user, hash, now + Lifetime(remember), None, false)];
        assert tokens[|tokens| - 1].hash == hash;
      }
    }

    /** Succeeds exactly on an unrevoked, unexpired row of an active account. */
    method RefreshAccessToken(hash: string, now: int) returns (r: RefreshResult)
      requires Valid()
      ensures r == Exchange(accounts, tokens, hash, now)
      ensures r.Granted? <==> (exists t :: t in tokens && t.hash == hash && Usable(t, now) &&
                                       accounts[t.user].active && !accounts[t.user].deleted)
    {
      var found := FindHash(tokens, hash);
      if found.None? || !Usable(tokens[found.value], now) {
        return InvalidToken;
      }
      var user := tokens[found.value].user;
      if !Open(accounts[user]) {
        return InactiveUser;
      }
      r := Granted(user);
    }

    /** True exactly when an unrevoked row had the hash, soft-deleted rows included. */
    method RevokeRefreshToken(hash: string, now: int) returns (revoked: bool)
      requires Valid()
      modifies `tokens
      ensures Valid() && tokens == RevokedOne(old(tokens), hash, now)
      ensures revoked <==> (exists t :: t in old(tokens) && t.hash == hash && t.revoked.None?)
      ensures forall later :: Exchange(accounts, tokens, hash, later) == InvalidToken
    {
      var found := FindHash(tokens, hash);
      revoked := found.Some? && tokens[found.value].revoked.None?;
      tokens := RevokedOne(tokens, hash, now);
    }

    method RevokeAllUserTokens(user: nat, now: int) returns (count: nat)
      requires Valid()
      modifies `tokens
      ensures Valid() && tokens == RevokedAll(old(tokens), user, now)
      ensures count == RowCount(old(tokens), tokens)
      ensures forall i :: 0 <= i < |tokens| && tokens[i].user == user ==> tokens[i].revoked.Some?
    {
      var before := tokens;
      tokens := RevokedAll(tokens, user, now);
      count := RowCount(before, tokens);
    }

    /** `right` is the outcome of checking the current password's hash. */
    method ChangePassword(user: nat, right: bool, revoke: bool, now: int) returns (r: ChangeResult)
      requires Valid() && user < |accounts|
      modifies `tokens
      ensures Valid()
      ensures r == if !accounts[user].hasPassword then OAuthOnly else if !right then WrongPassword else Changed
      ensures tokens == if r == Changed && revoke then RevokedAll(old(tokens), user, now) else old(tokens)
    {
      if !accounts[user].hasPassword {
        return OAuthOnly;
      }
      if !right {
        return WrongPassword;
      }
      if revoke {
        var _ := RevokeAllUserTokens(user, now);
      }
      r := Changed;
    }

    /** The clean-up changes no exchange, now or later: what it hides was expired or revoked. */
    method CleanupExpired(now: int) returns (count: nat)
      requires Valid()
      modifies `tokens
      ensures Valid() && tokens == Cleaned(old(tokens), now)
      ensures count == RowCount(old(tokens), tokens)
      ensures forall i :: 0 <= i < |tokens| ==>
                tokens[i] == old(tokens)[i].(deleted := old(tokens)[i].deleted || old(tokens)[i].expires < now
                                                        || old(tokens)[i].revoked.Some?)
      ensures forall later, i :: now <= later && 0 <= i < |tokens| ==>
          (Usable(tokens[i], later) <==> Usable(old(tokens)[i], later))
    {
      var before := tokens;
      tokens := Cleaned(tokens, now);
      count := RowCount(before, tokens);
    }
  }

  // ---------- Whole runs ----------

  datatype State = State(now: int, accounts: seq<Account>, tokens: seq<Token>)

  /** `DeleteAccount` is the soft delete with its revoke-all; `Reset` is the password reset with the
      revoke-all that its route adds. */
  datatype Event =
    | Issue(user: nat, hash: string, remember: bool)
    | Revoke(hash: string)
    | RevokeAll(user: nat)
    | ChangePassword(user: nat, right: bool, revoke: bool)
    | Reset(user: nat)
    | DeleteAccount(user: nat)
    | SetActive(user: nat, active: bool)
    | Cleanup
    | Tick(d: nat)

  ghost predicate Sound(s: State) {
    HashesUnique(s.tokens) && OwnersExist(s.accounts, s.tokens)
  }

  predicate ChangeRevokes(s: State, e: Event) {
    e.ChangePassword? && e.user < |s.accounts| && s.accounts[e.user].hasPassword && e.right && e.revoke
  }

  function TokensAfter(s: State, e: Event): seq<Token> {
    match e
    case Issue(user, hash, remember) =>
      if user < |s.accounts| then Issued(s.tokens, user, hash, remember, s.now) else s.tokens
    case Revoke(hash) => RevokedOne(s.tokens, hash, s.now)
    case RevokeAll(user) => RevokedAll(s.tokens, user, s.now)
    case ChangePassword(user, _, _) => if ChangeRevokes(s, e) then RevokedAll(s.tokens, user, s.now) else s.tokens
    case Reset(user) => RevokedAll(s.tokens, user, s.now)
    case DeleteAccount(user) => RevokedAll(s.tokens, user, s.now)
    case Cleanup => Cleaned(s.tokens, s.now)
    case _ => s.tokens
  }

  function AccountsAfter(accounts: seq<Account>, e: Event): seq<Account> {
    match e
    case Reset(user) => if user < |accounts| then accounts[user := accounts[user].(hasPassword := true)] else accounts
    case DeleteAccount(user) =>
      if user < |accounts| then accounts[user := accounts[user].(deleted := true)] else accounts
    case SetActive(user, active) =>
      if user < |accounts| then accounts[user := accounts[user].(active := active)] else accounts
    case _ => accounts
  }

  function Next(s: State, e: Event): State {
    State(if e.Tick? then s.now + e.d else s.now, AccountsAfter(s.accounts, e), TokensAfter(s, e))
  }

  function Run(s: State, events: seq<Event>): State
    decreases |events|
  {
    if events == [] then s else Run(Next(s, events[0]), events[1..])
  }

  function Grant(s: State, hash: string): RefreshResult {
    Exchange(s.accounts, s.tokens, hash, s.now)
  }

  // The event revokes row i.
  predicate Kills(s: State, e: Event, i: nat)
    requires i < |s.tokens|
  {
    match e
    case Revoke(hash) => hash == s.tokens[i].hash
    case RevokeAll(user) => user == s.tokens[i].user
    case ChangePassword(user, right, revoke) =>
      user == s.tokens[i].user && user < |s.accounts| && s.accounts[user].hasPassword && right && revoke
    case Reset(user) => user == s.tokens[i].user
    case DeleteAccount(user) => user == s.tokens[i].user
    case _ => false
  }

  predicate KilledIn(s: State, events: seq<Event>, i: nat)
    requires i < |s.tokens|
    decreases |events|
  {
    events != [] && (Kills(s, events[0], i) || KilledIn(Next(s, events[0]), events[1..], i))
  }

  lemma SoundStep(s: State, e: Event)
    requires Sound(s)
    ensures Sound(Next(s, e))
  {
  }

  // b is the row a later on: the same token, hidden at most when it is of no use any more, and revoked
  // exactly if it was before or the run killed it; the time of its first revocation stays.
  predicate Descends(a: Token, b: Token, now: int, killed: bool) {
    var same := b == a.(revoked := b.revoked, deleted := b.deleted) && (a.deleted ==> b.deleted);
    var hidden := b.deleted && !a.deleted ==> b.revoked.Some? || b.expires < now;
    || (same && hidden && b.revoked == a.revoked && (killed ==> a.revoked.Some?))
    || (same && hidden && killed && a.revoked.None? && b.revoked.Some?)
  }

  lemma DescendsStep(s: State, e: Event, i: nat)
    requires i < |s.tokens|
    ensures |s.tokens| <= |Next(s, e).tokens| && s.now <= Next(s, e).now
    ensures Descends(s.tokens[i], Next(s, e).tokens[i], Next(s, e).now, Kills(s, e, i))
  {
  }

  lemma {:induction false} DescendsRun(s: State, events: seq<Event>, i: nat)
    requires Sound(s) && i < |s.tokens|
    ensures Sound(Run(s, events)) && i < |Run(s, events).tokens| && s.now <= Run(s, events).now
    ensures Descends(s.tokens[i], Run(s, events).tokens[i], Run(s, events).now, KilledIn(s, events, i))
    decreases |events|
  {
    if events != [] {
      SoundStep(s, events[0]);
      DescendsStep(s, events[0], i);
      DescendsRun(Next(s, events[0]), events[1..], i);
    }
  }

  lemma GrantOfRow(s: State, i: nat)
    requires Sound(s) && i < |s.tokens|
    ensures Grant(s, s.tokens[i].hash) ==
            if !Usable(s.tokens[i], s.now) then InvalidToken
            else if Open(s.accounts[s.tokens[i].user]) then Granted(s.tokens[i].user)
            else InactiveUser
  {
    var found := FindHash(s.tokens, s.tokens[i].hash);
    assert found == Some(i);
  }

  // Whether the account is active after the events, and whether it is deleted.
  predicate ActiveAfter(active: bool, events: seq<Event>, user: nat)
    decreases |events|
  {
    if events == [] then active
    else
      var e := events[0];
      ActiveAfter(if e.SetActive? && e.user == user then e.active else active, events[1..], user)
  }

  predicate DeletedAfter(deleted: bool, events: seq<Event>, user: nat) {
    deleted || DeleteAccount(user) in events
  }

  // The seconds that pass in a run.
  function Elapsed(events: seq<Event>): nat {
    if events == [] then 0 else (if events[0].Tick? then events[0].d else 0) + Elapsed(events[1..])
  }

  lemma AccountStep(s: State, e: Event, user: nat)
    requires user < |s.accounts|
    ensures user < |Next(s, e).accounts|
    ensures var a, b := s.accounts[user], Next(s, e).accounts[user];
            b == Account(if e == SetActive(user, true) then true else if e == SetActive(user, false) then false
                         else a.active, a.deleted || e == DeleteAccount(user), a.hasPassword || e == Reset(user))
  {
  }

  lemma {:induction false} AccountRun(s: State, events: seq<Event>, user: nat)
    requires user < |s.accounts|
    ensures Run(s, events).now == s.now + Elapsed(events) && user < |Run(s, events).accounts|
    ensures var a := s.accounts[user];
            Run(s, events).accounts[user] == Account(ActiveAfter(a.active, events, user),
                                                     DeletedAfter(a.deleted, events, user),
                                                     a.hasPassword || Reset(user) in events)
    decreases |events|
  {
    if events != [] {
      AccountStep(s, events[0], user);
      AccountRun(Next(s, events[0]), events[1..], user);
      assert events == [events[0]] + events[1..];
    }
  }

  /** After any run, a token yields an access token exactly when it was neither revoked nor hidden at
      the start, nothing in the run revoked it, it has not expired, and its account was not deleted, before or
      in the run, and was left active. */
  lemma TokenWorksIff(s: State, events: seq<Event>, i: nat)
    requires Sound(s) && i < |s.tokens|
    ensures var t := Run(s, events);
            var token := s.tokens[i];
            && token.user < |t.accounts|
            && (Grant(t, token.hash).Granted? <==>
                (token.revoked.None? && !token.deleted && !KilledIn(s, events, i) &&
                 s.now + Elapsed(events) < token.expires &&
                 ActiveAfter(s.accounts[token.user].active, events, token.user) &&
                 !DeletedAfter(s.accounts[token.user].deleted, events, token.user)))
            && (Grant(t, token.hash).Granted? ==> Grant(t, token.hash) == Granted(token.user))
  {
    DescendsRun(s, events, i);
    GrantOfRow(Run(s, events), i);
    AccountRun(s, events, s.tokens[i].user);
  }

  /** A token issued to an account works, whatever follows, for 30 days if it is a remembered one and for 7
      days if not, unless something revokes it or closes the account. */
  lemma IssuedTokenWorksIff(s: State, user: nat, hash: string, remember: bool, events: seq<Event>)
    requires Sound(s) && user < |s.accounts| && forall i :: 0 <= i < |s.tokens| ==> s.tokens[i].hash != hash
    ensures var issued := Next(s, Issue(user, hash, remember));
            var t := Run(issued, events);
            && |issued.tokens| == |s.tokens| + 1
            && (Grant(t, hash) == Granted(user) <==>
                (&& !KilledIn(issued, events, |s.tokens|) && Elapsed(events) < (if remember then 30 else 7) * 86400
                 && ActiveAfter(s.accounts[user].active, events, user)
                 && !DeletedAfter(s.accounts[user].deleted, events, user)))
  {
    var issued := Next(s, Issue(user, hash, remember));
    SoundStep(s, Issue(user, hash, remember));
    assert issued.tokens[|s.tokens|].hash == hash;
    TokenWorksIff(issued, events, |s.tokens|);
  }

  /** No token issued to a user before one of that user's revoke-alls (sign-out everywhere, revoking
      password change, reset, account deletion) ever works again, whatever happens afterwards. */
  lemma RevocationIsPermanent(s: State, e: Event, events: seq<Event>, i: nat)
    requires Sound(s) && i < |s.tokens| && Kills(s, e, i)
    ensures Grant(Run(Next(s, e), events), s.tokens[i].hash) == InvalidToken
  {
    SoundStep(s, e);
    DescendsStep(s, e, i);
    DescendsRun(Next(s, e), events, i);
    GrantOfRow(Run(Next(s, e), events), i);
  }

  // ---------- Revoking one token leaves the others alone ----------

  // The two states differ at most in the row of one hash.
  predicate SameBut(a: State, b: State, hash: string) {
    && b == a.(tokens := b.tokens) && |a.tokens| == |b.tokens|
    && forall i :: 0 <= i < |a.tokens| ==>
         && a.tokens[i].hash == b.tokens[i].hash
         && (a.tokens[i].hash != hash ==> a.tokens[i] == b.tokens[i])
  }

  lemma SameHashes(a: seq<Token>, b: seq<Token>, hash: string)
    requires |a| == |b| && forall i :: 0 <= i < |a| ==> a[i].hash == b[i].hash
    ensures FindHash(a, hash) == FindHash(b, hash)
  {
    FindSame(a, b, HasHash(hash));
  }

  lemma {:induction false} SameButRun(a: State, b: State, events: seq<Event>, hash: string)
    requires SameBut(a, b, hash)
    ensures SameBut(Run(a, events), Run(b, events), hash)
    decreases |events|
  {
    if events != [] {
      if events[0].Issue? {
        SameHashes(a.tokens, b.tokens, events[0].hash);
      }
      SameButRun(Next(a, events[0]), Next(b, events[0]), events[1..], hash);
    }
  }

  /** Signing out one device changes no exchange of any other token, at once or after any run. */
  lemma RevokingOneLeavesTheOthers(s: State, hash: string, events: seq<Event>, other: string)
    requires other != hash
    ensures Grant(Run(Next(s, Revoke(hash)), events), other) == Grant(Run(s, events), other)
  {
    SameButRun(Next(s, Revoke(hash)), s, events, hash);
    SameHashes(Run(Next(s, Revoke(hash)), events).tokens, Run(s, events).tokens, other);
  }
}
