/** Refresh tokens over whole runs: a JWT with its own expiry beside a Redis entry with its own, both checked at
    refresh. */
module TokenProtocol {
  import opened Common

  datatype Kind = Access | Refresh

  /** A signed token. Nobody but the service can make one; `exp` is in whole seconds. */
  datatype Token = Token(kind: Kind, user: Uuid, jti: Uuid, exp: int)

  datatype Entry = Entry(token: Token, expireAt: real)

  const ACCESS_LIFETIME := 15 * 60
  const REFRESH_LIFETIME := 7 * 86400
  const STORE_TTL: real := 604800.0

  // ----- Keys -----

  const PREFIX := "auth:refresh:"

  function KeyFor(user: Uuid, jti: Uuid): string {
    PREFIX + user + ":" + jti
  }

  function KeyOf(token: Token): string {
    KeyFor(token.user, token.jti)
  }

  /** The glob pattern is literal up to its final star. */
  predicate MatchesPattern(user: Uuid, key: string) {
    PREFIX + user + ":" <= key
  }

  lemma KeyParts(user: Uuid, jti: Uuid)
    ensures KeyFor(user, jti)[..|PREFIX| + 36] == PREFIX + user
    ensures KeyFor(user, jti)[|PREFIX| + 37..] == jti
  {
    assert KeyFor(user, jti) == (PREFIX + user) + (":" + jti);
    assert KeyFor(user, jti) == (PREFIX + user + ":") + jti;
  }

  lemma KeyInjective(user: Uuid, jti: Uuid, other: Uuid, otherJti: Uuid)
    requires KeyFor(user, jti) == KeyFor(other, otherJti)
    ensures user == other && jti == otherJti
  {
    KeyParts(user, jti);
    KeyParts(other, otherJti);
    assert (PREFIX + user)[|PREFIX|..] == user && (PREFIX + other)[|PREFIX|..] == other;
  }

  /** A user's pattern finds that user's keys and nobody else's. */
  lemma PatternFindsOwnKeys(user: Uuid, other: Uuid, jti: Uuid)
    ensures MatchesPattern(user, KeyFor(other, jti)) <==> user == other
  {
    KeyParts(other, jti);
    if MatchesPattern(user, KeyFor(other, jti)) {
      assert (PREFIX + user + ":")[..|PREFIX| + 36] == PREFIX + user;
      assert (PREFIX + user)[|PREFIX|..] == user && (PREFIX + other)[|PREFIX|..] == other;
    } else {
      assert PREFIX + other + ":" <= KeyFor(other, jti);
    }
  }

  // ----- The service and its stores -----

  /** A logout-all call that is scanning, with the keys that were there when it began. */
  datatype Scan = Scan(user: Uuid, present: set<string>)

  datatype State = State(
    now: real, users: map<Uuid, bool>, minted: set<Token>, awaiting: set<Token>, store: map<string, Entry>,
    leaving: set<Token>, scans: map<nat, Scan>)

  function Start(now: real): State {
    State(now, map[], {}, {}, map[], {}, map[])
  }

  datatype Step =
    | Tick(to: real)
    | SetUser(user: Uuid, active: bool)
    | DropUser(user: Uuid)
    | Mint(kind: Kind, user: Uuid, jti: Uuid)
    | Store(token: Token)
    | CheckLogout(token: Token)
    | Delete(token: Token)
    | BeginLogoutAll(call: nat, user: Uuid)
    | FinishLogoutAll(call: nat, keys: set<string>)

  function Lifetime(kind: Kind): int {
    if kind.Access? then ACCESS_LIFETIME else REFRESH_LIFETIME
  }

  function NewToken(now: real, kind: Kind, user: Uuid, jti: Uuid): Token {
    Token(kind, user, jti, now.Floor + Lifetime(kind))
  }

  predicate Live(s: State, key: string) {
    key in s.store && s.now <= s.store[key].expireAt
  }

  /** A JWT library accepts a token through the second named by `exp`. */
  predicate JwtAccepts(s: State, token: Token) {
    token in s.minted && s.now.Floor <= token.exp && token.kind.Refresh?
  }

  predicate StoreAccepts(s: State, token: Token) {
    Live(s, KeyOf(token)) && s.store[KeyOf(token)].token == token
  }

  predicate UserActive(s: State, user: Uuid) {
    user in s.users && s.users[user]
  }

  predicate Enabled(s: State, step: Step) {
    match step
    case Tick(to) => s.now <= to
    case Mint(_, _, jti) => forall t :: t in s.minted ==> t.jti != jti
    case Store(token) => token in s.awaiting
    case Delete(token) => token in s.leaving
    case BeginLogoutAll(call, _) => call !in s.scans
    case FinishLogoutAll(call, keys) =>
      && call in s.scans
      && (forall k :: k in keys ==> MatchesPattern(s.scans[call].user, k))
      && (forall k :: k in s.scans[call].present && Live(s, k) ==> k in keys)
    case _ => true
  }

  function Apply(s: State, step: Step): State
    requires Enabled(s, step)
  {
    match step
    case Tick(to) => s.(now := to)
    case SetUser(user, active) => s.(users := s.users[user := active])
    case DropUser(user) => s.(users := s.users - {user})
    case Mint(kind, user, jti) =>
      var token := NewToken(s.now, kind, user, jti);
      s.(minted := s.minted + {token}, awaiting := if kind.Refresh? then s.awaiting + {token} else s.awaiting)
    case Store(token) =>
      s.(awaiting := s.awaiting - {token}, store := s.store[KeyOf(token) := Entry(token, s.now + STORE_TTL)])
    case CheckLogout(token) => if JwtAccepts(s, token) then s.(leaving := s.leaving + {token}) else s
    case Delete(token) => s.(store := s.store - {KeyOf(token)})
    case BeginLogoutAll(call, user) =>
      s.(scans := s.scans[call := Scan(user, set k | k in s.store && Live(s, k) && MatchesPattern(user, k))])
    case FinishLogoutAll(call, keys) => s.(store := s.store - keys, scans := s.scans - {call})
  }

  predicate ValidRun(start: real, steps: seq<Step>)
    decreases |steps|, 0
  {
    steps == [] ||
    (ValidRun(start, steps[..|steps| - 1]) && Enabled(Exec(start, steps[..|steps| - 1]), steps[|steps| - 1]))
  }

  function Exec(start: real, steps: seq<Step>): State
    requires ValidRun(start, steps)
    decreases |steps|, 1
  {
    if steps == [] then Start(start) else Apply(Exec(start, steps[..|steps| - 1]), steps[|steps| - 1])
  }

  lemma {:induction false} PrefixIsARun(start: real, steps: seq<Step>, k: nat)
    requires ValidRun(start, steps) && k <= |steps|
    ensures ValidRun(start, steps[..k])
    ensures k < |steps| ==> Enabled(Exec(start, steps[..k]), steps[k])
  {
    if k == |steps| {
      assert steps[..k] == steps;
    } else {
      var n := |steps| - 1;
      PrefixIsARun(start, steps[..n], k);
      if k < n {
        assert steps[..n][..k] == steps[..k];
      } else {
        assert steps[..n][..k] == steps[..n];
      }
    }
  }

  /** The state after the first `k` steps. */
  function After(start: real, steps: seq<Step>, k: nat): State
    requires ValidRun(start, steps) && k <= |steps|
  {
    PrefixIsARun(start, steps, k);
    Exec(start, steps[..k])
  }

  lemma AfterStep(start: real, steps: seq<Step>, k: nat)
    requires ValidRun(start, steps) && k < |steps|
    ensures Enabled(After(start, steps, k), steps[k])
    ensures After(start, steps, k + 1) == Apply(After(start, steps, k), steps[k])
  {
    PrefixIsARun(start, steps, k);
    PrefixIsARun(start, steps, k + 1);
    assert steps[..k + 1][..k] == steps[..k];
  }

  // ----- What every run keeps -----

  ghost predicate JtisUnique(s: State) {
    forall t, u :: t in s.minted && u in s.minted && t.jti == u.jti ==> t == u
  }

  ghost predicate Sound(s: State) {
    && JtisUnique(s)
    && (forall t :: t in s.awaiting ==> t in s.minted && t.kind.Refresh?)
    && (forall k :: k in s.store ==>
          s.store[k].token in s.minted && s.store[k].token !in s.awaiting && s.store[k].token.kind.Refresh? &&
          k == KeyOf(s.store[k].token))
    && (forall t :: t in s.leaving ==> t in s.minted)
  }

  lemma DistinctKeys(s: State, t: Token, u: Token)
    requires JtisUnique(s) && t in s.minted && u in s.minted && KeyOf(t) == KeyOf(u)
    ensures t == u
  {
    KeyInjective(t.user, t.jti, u.user, u.jti);
  }

  lemma StepKeepsSound(s: State, step: Step)
    requires Sound(s) && Enabled(s, step)
    ensures Sound(Apply(s, step))
  {}

  lemma {:induction false} RunIsSound(start: real, steps: seq<Step>, k: nat)
    requires ValidRun(start, steps) && k <= |steps|
    ensures Sound(After(start, steps, k))
  {
    if k > 0 {
      RunIsSound(start, steps, k - 1);
      AfterStep(start, steps, k - 1);
      StepKeepsSound(After(start, steps, k - 1), steps[k - 1]);
    }
  }

  lemma {:induction false} TimeIsMonotone(start: real, steps: seq<Step>, i: nat, k: nat)
    requires ValidRun(start, steps) && i <= k <= |steps|
    ensures After(start, steps, i).now <= After(start, steps, k).now
  {
    if i < k {
      TimeIsMonotone(start, steps, i, k - 1);
      AfterStep(start, steps, k - 1);
    }
  }

  lemma {:induction false} MintedStays(start: real, steps: seq<Step>, i: nat, k: nat, token: Token)
    requires ValidRun(start, steps) && i <= k <= |steps| && token in After(start, steps, i).minted
    ensures token in After(start, steps, k).minted
    ensures token !in After(start, steps, i).awaiting ==> token !in After(start, steps, k).awaiting
  {
    if i < k {
      MintedStays(start, steps, i, k - 1, token);
      AfterStep(start, steps, k - 1);
    }
  }

  // ----- Refresh, by the history of the run -----

  predicate Revokes(step: Step, token: Token) {
    step == Delete(token) || (step.FinishLogoutAll? && KeyOf(token) in step.keys)
  }

  /** The token was stored by step `i` and no step before `k` has revoked it since. */
  ghost predicate IssuedAt(steps: seq<Step>, i: nat, k: nat, token: Token)
    requires k <= |steps|
  {
    i < k && steps[i] == Store(token) && forall j :: i < j < k ==> !Revokes(steps[j], token)
  }

  lemma StoringStep(start: real, steps: seq<Step>, i: nat, token: Token)
    requires ValidRun(start, steps) && i < |steps| && steps[i] == Store(token)
    ensures token in After(start, steps, i).minted && token in After(start, steps, i).awaiting && token.kind.Refresh?
    ensures token !in After(start, steps, i + 1).awaiting
  {
    AfterStep(start, steps, i);
    RunIsSound(start, steps, i);
  }

  /** No token is stored twice. */
  lemma StoredOnce(start: real, steps: seq<Step>, i: nat, j: nat, token: Token)
    requires ValidRun(start, steps) && i < |steps| && j < |steps|
    requires steps[i] == Store(token) && steps[j] == Store(token)
    ensures i == j
  {
    StoringStep(start, steps, i, token);
    StoringStep(start, steps, j, token);
    var first, second := if i < j then i else j, if i < j then j else i;
    if first < second {
      AfterStep(start, steps, first);
      MintedStays(start, steps, first + 1, second, token);
    }
  }

  /** A step that does not store the token leaves it an entry only if it had that entry, and does not revoke it. */
  lemma EntryWasThere(s: State, step: Step, token: Token)
    requires Sound(s) && Enabled(s, step) && step != Store(token)
    requires var t := Apply(s, step); KeyOf(token) in t.store && t.store[KeyOf(token)].token == token
    ensures KeyOf(token) in s.store && s.store[KeyOf(token)] == Apply(s, step).store[KeyOf(token)]
    ensures !Revokes(step, token)
  {}

  /** A stored entry comes from the step that stored its token, not revoked since. */
  lemma {:induction false} EntryWasIssued(start: real, steps: seq<Step>, k: nat, token: Token) returns (i: nat)
    requires ValidRun(start, steps) && k <= |steps|
    requires KeyOf(token) in After(start, steps, k).store && After(start, steps, k).store[KeyOf(token)].token == token
    ensures IssuedAt(steps, i, k, token)
    ensures After(start, steps, k).store[KeyOf(token)].expireAt == After(start, steps, i).now + STORE_TTL
  {
    var n := k - 1;
    AfterStep(start, steps, n);
    RunIsSound(start, steps, n);
    if steps[n] == Store(token) {
      i := n;
    } else {
      EntryWasThere(After(start, steps, n), steps[n], token);
      i := EntryWasIssued(start, steps, n, token);
    }
  }

  /** A token stays in the store from the step that stored it until one revokes it. */
  lemma {:induction false} IssuedHasEntry(start: real, steps: seq<Step>, i: nat, k: nat, token: Token)
    requires ValidRun(start, steps) && k <= |steps| && IssuedAt(steps, i, k, token)
    ensures var s := After(start, steps, k);
            KeyOf(token) in s.store && s.store[KeyOf(token)] == Entry(token, After(start, steps, i).now + STORE_TTL)
  {
    var n := k - 1;
    AfterStep(start, steps, n);
    if i < n {
      var s := After(start, steps, n);
      assert IssuedAt(steps, i, n, token);
      IssuedHasEntry(start, steps, i, n, token);
      RunIsSound(start, steps, n);
      StoringStep(start, steps, i, token);
      AfterStep(start, steps, i);
      MintedStays(start, steps, i, n, token);
      assert !Revokes(steps[n], token);
      if steps[n].Delete? && KeyOf(steps[n].token) == KeyOf(token) {
        DistinctKeys(s, steps[n].token, token);
        assert false;
      }
      if steps[n].Store? && KeyOf(steps[n].token) == KeyOf(token) {
        DistinctKeys(s, steps[n].token, token);
        assert false;
      }
    }
  }

  /** The store accepts a token exactly when it was stored, was not revoked since, and its entry has not run out. */
  lemma StoreAcceptsByHistory(start: real, steps: seq<Step>, k: nat, token: Token)
    requires ValidRun(start, steps) && k <= |steps|
    ensures StoreAccepts(After(start, steps, k), token) <==>
              exists i :: IssuedAt(steps, i, k, token)
                && After(start, steps, k).now <= After(start, steps, i).now + 604800.0
  {
    if StoreAccepts(After(start, steps, k), token) {
      var i := EntryWasIssued(start, steps, k, token);
    }
    if i :| IssuedAt(steps, i, k, token) && After(start, steps, k).now <= After(start, steps, i).now + STORE_TTL {
      IssuedHasEntry(start, steps, i, k, token);
    }
  }

  /** Step `m` minted the token: an access token is good for 15 minutes from that second on, a refresh token for seven
      days. */
  ghost predicate MintedAt(start: real, steps: seq<Step>, m: nat, k: nat, token: Token)
    requires ValidRun(start, steps) && k <= |steps|
  {
    && m < k && steps[m] == Mint(token.kind, token.user, token.jti)
    && token.exp == After(start, steps, m).now.Floor + if token.kind.Access? then 900 else 604800
  }

  /** A token exists exactly when some step minted it. */
  lemma {:induction false} MintedByHistory(start: real, steps: seq<Step>, k: nat, token: Token)
    requires ValidRun(start, steps) && k <= |steps|
    ensures token in After(start, steps, k).minted <==> exists m :: MintedAt(start, steps, m, k, token)
  {
    if k > 0 {
      var n := k - 1;
      AfterStep(start, steps, n);
      MintedByHistory(start, steps, n, token);
      if m: nat :| MintedAt(start, steps, m, n, token) {
        assert MintedAt(start, steps, m, k, token);
      }
      if m: nat :| MintedAt(start, steps, m, k, token) {
        assert m < n ==> MintedAt(start, steps, m, n, token);
      }
      if token in After(start, steps, k).minted && token !in After(start, steps, n).minted {
        assert MintedAt(start, steps, n, k, token);
      }
    }
  }

  /** Step `j` sets the user's row to active, and none before `k` has set or dropped it since. */
  ghost predicate ActivatedAt(steps: seq<Step>, j: nat, k: nat, user: Uuid)
    requires k <= |steps|
  {
    && j < k && steps[j] == SetUser(user, true)
    && forall i :: j < i < k ==> steps[i] != DropUser(user) && !(steps[i].SetUser? && steps[i].user == user)
  }

  /** A user is active exactly when the last word on its row says so. */
  lemma {:induction false} ActiveByHistory(start: real, steps: seq<Step>, k: nat, user: Uuid)
    requires ValidRun(start, steps) && k <= |steps|
    ensures UserActive(After(start, steps, k), user) <==> exists j :: ActivatedAt(steps, j, k, user)
  {
    if k > 0 {
      var n := k - 1;
      AfterStep(start, steps, n);
      ActiveByHistory(start, steps, n, user);
      if steps[n] == SetUser(user, true) {
        assert ActivatedAt(steps, n, k, user);
      } else if j: nat :| ActivatedAt(steps, j, k, user) {
        assert ActivatedAt(steps, j, n, user);
      } else if j: nat :| ActivatedAt(steps, j, n, user) {
        assert steps[n] == DropUser(user) || (steps[n].SetUser? && steps[n].user == user) ||
               ActivatedAt(steps, j, k, user);
      }
    }
  }

  /** A refresh checks the JWT first, then Redis, then the user row, and other calls run in between. */
  predicate RefreshAccepts(atJwt: State, atStore: State, atUser: State, token: Token) {
    JwtAccepts(atJwt, token) && StoreAccepts(atStore, token) && UserActive(atUser, token.user)
  }

  /** A refresh is accepted exactly when the token was minted as a refresh token less than seven days before its JWT was
      looked at, was stored less than seven days before its entry was, with no logout of it and no logout-all that found
      it in between, and the last word on the user's row before that was looked at is active. */
  lemma RefreshByHistory(start: real, steps: seq<Step>, a: nat, b: nat, c: nat, token: Token)
    requires ValidRun(start, steps) && a <= b <= c <= |steps|
    ensures RefreshAccepts(After(start, steps, a), After(start, steps, b), After(start, steps, c), token) <==>
              && token.kind.Refresh?
              && (exists m :: MintedAt(start, steps, m, a, token)
                    && After(start, steps, a).now.Floor <= After(start, steps, m).now.Floor + 604800)
              && (exists i :: IssuedAt(steps, i, b, token)
                    && After(start, steps, b).now <= After(start, steps, i).now + 604800.0)
              && (exists j :: ActivatedAt(steps, j, c, token.user))
  {
    StoreAcceptsByHistory(start, steps, b, token);
    MintedByHistory(start, steps, a, token);
    ActiveByHistory(start, steps, c, token.user);
  }

  /** Once revoked, never accepted again. */
  lemma RevokedForGood(start: real, steps: seq<Step>, i: nat, j: nat, k: nat, token: Token)
    requires ValidRun(start, steps) && i < j < k <= |steps| && steps[i] == Store(token) && Revokes(steps[j], token)
    ensures !StoreAccepts(After(start, steps, k), token)
  {
    StoreAcceptsByHistory(start, steps, k, token);
    forall h | IssuedAt(steps, h, k, token)
      ensures false
    {
      StoredOnce(start, steps, h, i, token);
    }
  }

  lemma {:induction false} ScanPersists(start: real, steps: seq<Step>, b: nat, k: nat)
    requires ValidRun(start, steps) && b < k <= |steps| && steps[b].BeginLogoutAll?
    requires forall j :: b < j < k ==> !(steps[j].FinishLogoutAll? && steps[j].call == steps[b].call)
    ensures var s, call := After(start, steps, b), steps[b].call;
            && call in After(start, steps, k).scans
            && After(start, steps, k).scans[call] ==
                 Scan(steps[b].user, set key | key in s.store && Live(s, key) && MatchesPattern(steps[b].user, key))
  {
    AfterStep(start, steps, k - 1);
    if b < k - 1 {
      ScanPersists(start, steps, b, k - 1);
    }
  }

  /** Every session stored before a logout-all of its user begins is over once that call finishes, whatever runs while
      it scans. A session stored during the scan may be missed. */
  lemma LogoutAllEndsSessions(start: real, steps: seq<Step>, i: nat, b: nat, f: nat, k: nat, token: Token)
    requires ValidRun(start, steps) && i < b < f < k <= |steps| && steps[i] == Store(token)
    requires steps[b].BeginLogoutAll? && steps[b].user == token.user
    requires steps[f].FinishLogoutAll? && steps[f].call == steps[b].call
    requires forall j :: b < j < f ==> !(steps[j].FinishLogoutAll? && steps[j].call == steps[b].call)
    ensures !StoreAccepts(After(start, steps, k), token)
  {
    StoreAcceptsByHistory(start, steps, k, token);
    forall h | IssuedAt(steps, h, k, token) && After(start, steps, k).now <= After(start, steps, h).now + STORE_TTL
      ensures false
    {
      StoredOnce(start, steps, h, i, token);
      TimeIsMonotone(start, steps, b, f);
      TimeIsMonotone(start, steps, f, k);
      assert IssuedAt(steps, i, b, token) && IssuedAt(steps, i, f, token);
      IssuedHasEntry(start, steps, i, b, token);
      IssuedHasEntry(start, steps, i, f, token);
      ScanPersists(start, steps, b, f);
      PatternFindsOwnKeys(token.user, token.user, token.jti);
      AfterStep(start, steps, f);
    }
  }

  // ----- While every logout-all runs at once -----

  /** Each logout-all finishes right after it begins, with nothing stored or deleted while it scans. */
  predicate ScansAtOnce(steps: seq<Step>, k: nat)
    requires k <= |steps|
  {
    forall f :: 0 <= f < k && steps[f].FinishLogoutAll? ==>
      f > 0 && steps[f - 1].BeginLogoutAll? && steps[f - 1].call == steps[f].call
  }

  /** A logout of this token, or a logout-all of its user. */
  predicate LogsOut(steps: seq<Step>, j: nat, token: Token)
    requires j < |steps|
  {
    || steps[j] == Delete(token)
    || (steps[j].FinishLogoutAll? && j > 0 && steps[j - 1].BeginLogoutAll? && steps[j - 1].user == token.user)
  }

  ghost predicate LoggedInAt(steps: seq<Step>, i: nat, k: nat, token: Token)
    requires k <= |steps|
  {
    i < k && steps[i] == Store(token) && forall j :: i < j < k ==> !LogsOut(steps, j, token)
  }

  /** Only a logout of the token or of its user revokes it. */
  lemma RevokingLogsOut(start: real, steps: seq<Step>, j: nat, token: Token)
    requires ValidRun(start, steps) && j < |steps| && ScansAtOnce(steps, j + 1) && Revokes(steps[j], token)
    ensures LogsOut(steps, j, token)
  {
    if steps[j].FinishLogoutAll? {
      AfterStep(start, steps, j - 1);
      AfterStep(start, steps, j);
      PatternFindsOwnKeys(steps[j - 1].user, token.user, token.jti);
    }
  }

  lemma LogoutEndsSession(start: real, steps: seq<Step>, i: nat, j: nat, k: nat, token: Token)
    requires ValidRun(start, steps) && i < j < k <= |steps| && ScansAtOnce(steps, k)
    requires steps[i] == Store(token) && LogsOut(steps, j, token)
    ensures !StoreAccepts(After(start, steps, k), token)
  {
    if steps[j] == Delete(token) {
      RevokedForGood(start, steps, i, j, k, token);
    } else {
      LogoutAllEndsSessions(start, steps, i, j - 1, j, k, token);
    }
  }

  /** While every logout-all runs at once, the store accepts a token exactly when it was stored less than seven days ago
      and since then neither it was logged out nor its user everywhere. */
  lemma StoreAcceptsWithoutOverlap(start: real, steps: seq<Step>, k: nat, token: Token)
    requires ValidRun(start, steps) && k <= |steps| && ScansAtOnce(steps, k)
    ensures StoreAccepts(After(start, steps, k), token) <==>
              exists i :: LoggedInAt(steps, i, k, token)
                && After(start, steps, k).now <= After(start, steps, i).now + 604800.0
  {
    var s := After(start, steps, k);
    StoreAcceptsByHistory(start, steps, k, token);
    if StoreAccepts(s, token) {
      var i: nat :| IssuedAt(steps, i, k, token) && s.now <= After(start, steps, i).now + STORE_TTL;
      forall j: nat | i < j < k
        ensures !LogsOut(steps, j, token)
      {
        if LogsOut(steps, j, token) {
          LogoutEndsSession(start, steps, i, j, k, token);
          assert false;
        }
      }
      assert LoggedInAt(steps, i, k, token);
    }
    if i: nat :| LoggedInAt(steps, i, k, token) && s.now <= After(start, steps, i).now + STORE_TTL {
      forall j: nat | i < j < k
        ensures !Revokes(steps[j], token)
      {
        if Revokes(steps[j], token) {
          RevokingLogsOut(start, steps, j, token);
          assert false;
        }
      }
      assert IssuedAt(steps, i, k, token);
    }
  }

  /** The refresh condition in its plain words: minted and stored in the last seven days, the user active, and since
      the issue no logout of the token and no logout-all of its user. */
  lemma RefreshWithoutOverlap(start: real, steps: seq<Step>, k: nat, token: Token)
    requires ValidRun(start, steps) && k <= |steps| && ScansAtOnce(steps, k)
    ensures var s := After(start, steps, k);
            RefreshAccepts(s, s, s, token) <==>
              && token.kind.Refresh?
              && (exists m :: MintedAt(start, steps, m, k, token)
                    && s.now.Floor <= After(start, steps, m).now.Floor + 604800)
              && (exists i :: LoggedInAt(steps, i, k, token) && s.now <= After(start, steps, i).now + 604800.0)
              && (exists j :: ActivatedAt(steps, j, k, token.user))
  {
    RefreshByHistory(start, steps, k, k, k, token);
    StoreAcceptsByHistory(start, steps, k, token);
    StoreAcceptsWithoutOverlap(start, steps, k, token);
  }

  /** Ending one user's sessions, one or all, leaves every other user's as they were. */
  lemma OthersUntouched(s: State, step: Step, token: Token)
    requires Sound(s) && Enabled(s, step) && !step.Tick? && !step.Store?
    requires step.Delete? ==> step.token.user != token.user
    requires step.FinishLogoutAll? ==> s.scans[step.call].user != token.user
    ensures StoreAccepts(Apply(s, step), token) == StoreAccepts(s, token)
  {
    if step.Delete? && KeyOf(step.token) == KeyOf(token) {
      KeyInjective(step.token.user, step.token.jti, token.user, token.jti);
    }
    if step.FinishLogoutAll? {
      PatternFindsOwnKeys(s.scans[step.call].user, token.user, token.jti);
    }
  }

  /** Neither expiry makes the other redundant: an entry stored in the second its JWT was made runs out first, one
      stored a second or more later outlives it. */
  lemma WhichExpiresFirst(made: real, stored: real, now: real)
    requires made <= stored
    ensures stored.Floor == made.Floor && now <= stored + STORE_TTL ==> now.Floor <= made.Floor + Lifetime(Refresh)
    ensures stored.Floor > made.Floor && now.Floor <= made.Floor + Lifetime(Refresh) ==> now <= stored + STORE_TTL
  {}
}
