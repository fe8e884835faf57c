/**
 The refresh-token store, and the token service's logins and refreshes as they interleave.
 Instants are microseconds.
 */
module RefreshTokens {
  import opened Options
  import opened FiniteSets
  import opened Text

  const SECOND: int := 1_000_000

  datatype Store = Store(tokens: map<string, int>, lastPurge: int, purgeIntervalSeconds: int)

  function Key(userId: string, token: string): string {
    userId + ":" + token
  }

  function Purged(tokens: map<string, int>, now: int): map<string, int> {
    map k | k in tokens && tokens[k] > now :: tokens[k]
  }

  function PurgedIfDue(s: Store, now: int): Store {
    if now / SECOND - s.lastPurge < s.purgeIntervalSeconds then s
    else s.(tokens := Purged(s.tokens, now), lastPurge := now / SECOND)
  }

  function Stored(s: Store, userId: string, token: string, expires: int, now: int): Store {
    var purged := PurgedIfDue(s, now);
    purged.(tokens := purged.tokens[Key(userId, token) := expires])
  }

  predicate Validates(tokens: map<string, int>, userId: string, token: string, now: int) {
    Key(userId, token) in tokens && tokens[Key(userId, token)] > now
  }

  function Without(tokens: map<string, int>, userId: string, token: string): map<string, int> {
    tokens - {Key(userId, token)}
  }

  /** The entries but for those whose deadline has come. */
  ghost predicate WithoutExpired(before: map<string, int>, after: map<string, int>, now: int)
  {
    && (forall k :: k in after <==> k in before && before[k] > now)
    && (forall k :: k in after ==> after[k] == before[k])
  }

  /** `before`, without the expired entries when the interval since the last purge is over. */
  ghost predicate PurgedWhenDue(before: Store, after: Store, now: int)
  {
    && after.purgeIntervalSeconds == before.purgeIntervalSeconds
    && if now / SECOND < before.lastPurge + before.purgeIntervalSeconds then after == before
       else after.lastPurge == now / SECOND && WithoutExpired(before.tokens, after.tokens, now)
  }

  /** The store, changed in place. */
  class RefreshTokenStore {
    var tokens: map<string, int>
    var lastPurge: int
    const purgeIntervalSeconds: int

    constructor (purgeIntervalSeconds: int)
      ensures State() == Store(map[], 0, purgeIntervalSeconds)
    {
      tokens, lastPurge := map[], 0;
      this.purgeIntervalSeconds := purgeIntervalSeconds;
    }

    function State(): Store
      reads this
    {
      Store(tokens, lastPurge, purgeIntervalSeconds)
    }

    /** Drops every entry whose deadline has passed, returning how many. */
    method PurgeExpired(now: int) returns (removed: nat)
      modifies this`tokens
      ensures tokens == Purged(old(tokens), now)
      ensures WithoutExpired(old(tokens), tokens, now)
      ensures removed == |old(tokens)| - |tokens|
    {
      var before := tokens;
      var left := tokens.Keys;
      while left != {}
        invariant left <= before.Keys && left <= tokens.Keys <= before.Keys
        invariant forall k :: k in tokens ==> tokens[k] == before[k]
        invariant forall k :: k in before && k !in left ==> (k in tokens <==> before[k] > now)
        decreases left
      {
        var k :| k in left;
        left := left - {k};
        if tokens[k] <= now {
          tokens := tokens - {k};
        }
      }
      assert tokens.Keys <= before.Keys;
      SubsetSize(tokens.Keys, before.Keys);
      assert |tokens.Keys| == |tokens| && |before.Keys| == |before|;
      removed := |before| - |tokens|;
    }

    method PurgeIfDue(now: int)
      modifies this
      ensures State() == PurgedIfDue(old(State()), now)
      ensures PurgedWhenDue(old(State()), State(), now)
    {
      var last, nowSeconds := lastPurge, now / SECOND;
      if nowSeconds - last < purgeIntervalSeconds {
        return;
      }
      lastPurge := nowSeconds;
      var _ := PurgeExpired(now);
    }

    /** Records a token against a user, sweeping first. */
    method StoreToken(userId: string, token: string, expires: int, now: int)
      modifies this
      ensures State() == Stored(old(State()), userId, token, expires, now)
      ensures exists purged :: PurgedWhenDue(old(State()), purged, now)
                               && State() == purged.(tokens := purged.tokens[userId + ":" + token := expires])
    {
      PurgeIfDue(now);
      assert PurgedWhenDue(old(State()), State(), now);
      tokens := tokens[Key(userId, token) := expires];
    }

    method Validate(userId: string, token: string, now: int) returns (valid: bool)
      ensures valid == Validates(tokens, userId, token, now)
      ensures var key := userId + ":" + token; valid <==> key in tokens && now < tokens[key]
    {
      valid := Key(userId, token) in tokens && tokens[Key(userId, token)] > now;
    }

    /** Consumes a token, whether it was valid or not, reporting which. */
    method Take(userId: string, token: string, now: int) returns (valid: bool)
      modifies this`tokens
      ensures valid == Validates(old(tokens), userId, token, now)
      ensures tokens == Without(old(tokens), userId, token)
      ensures var key := userId + ":" + token; valid <==> key in old(tokens) && now < old(tokens)[key]
      ensures forall k :: k in tokens <==> k in old(tokens) && k != userId + ":" + token
      ensures forall k :: k in tokens ==> tokens[k] == old(tokens)[k]
    {
      var key := Key(userId, token);
      valid := key in tokens && tokens[key] > now;
      tokens := tokens - {key};
    }

    method Revoke(userId: string, token: string)
      modifies this`tokens
      ensures tokens == Without(old(tokens), userId, token)
    {
      tokens := tokens - {Key(userId, token)};
    }
  }

  // ------------------------------------------------------------------
  // Purging is unobservable
  // ------------------------------------------------------------------

  datatype Call =
    | StoreCall(userId: string, token: string, expires: int)
    | ValidateCall(userId: string, token: string)
    | TakeCall(userId: string, token: string)
    | RevokeCall(userId: string, token: string)
    | PurgeCall

  datatype Timed = Timed(call: Call, now: int)

  function AfterCall(s: Store, c: Timed): Store {
    match c.call
    case StoreCall(userId, token, expires) => Stored(s, userId, token, expires, c.now)
    case ValidateCall(_, _) => s
    case TakeCall(userId, token) => s.(tokens := Without(s.tokens, userId, token))
    case RevokeCall(userId, token) => s.(tokens := Without(s.tokens, userId, token))
    case PurgeCall => s.(tokens := Purged(s.tokens, c.now))
  }

  /** The same in a store that never drops an expired token by itself. */
  function AfterCallUnpurged(tokens: map<string, int>, c: Timed): map<string, int> {
    match c.call
    case StoreCall(userId, token, expires) => tokens[Key(userId, token) := expires]
    case TakeCall(userId, token) => Without(tokens, userId, token)
    case RevokeCall(userId, token) => Without(tokens, userId, token)
    case _ => tokens
  }

  /** What `validate` or `take` answers. */
  function AnswerTo(tokens: map<string, int>, c: Timed): seq<bool> {
    match c.call
    case ValidateCall(userId, token) => [Validates(tokens, userId, token, c.now)]
    case TakeCall(userId, token) => [Validates(tokens, userId, token, c.now)]
    case _ => []
  }

  function Answers(s: Store, calls: seq<Timed>): seq<bool>
    decreases |calls|
  {
    if calls == [] then [] else AnswerTo(s.tokens, calls[0]) + Answers(AfterCall(s, calls[0]), calls[1..])
  }

  function UnpurgedAnswers(tokens: map<string, int>, calls: seq<Timed>): seq<bool>
    decreases |calls|
  {
    if calls == [] then []
    else AnswerTo(tokens, calls[0]) + UnpurgedAnswers(AfterCallUnpurged(tokens, calls[0]), calls[1..])
  }

  predicate InTimeOrder(calls: seq<Timed>, from: int) {
    calls == [] || (from <= calls[0].now && InTimeOrder(calls[1..], calls[0].now))
  }

  /** What has been dropped by `now` had expired. */
  ghost predicate Dropped(purged: map<string, int>, all: map<string, int>, now: int)
  {
    && (forall k :: k in purged ==> k in all && all[k] == purged[k])
    && (forall k :: k in all && k !in purged ==> all[k] <= now)
  }

  lemma CallKeepsDropped(s: Store, all: map<string, int>, c: Timed, from: int)
    requires Dropped(s.tokens, all, from) && from <= c.now
    ensures Dropped(AfterCall(s, c).tokens, AfterCallUnpurged(all, c), c.now)
    ensures AnswerTo(s.tokens, c) == AnswerTo(all, c)
  {
  }

  /** At times that never decrease, dropping expired tokens changes no answer of `take` or `validate`. */
  lemma {:induction false} PurgeUnobservable(s: Store, all: map<string, int>, calls: seq<Timed>, from: int)
    requires Dropped(s.tokens, all, from) && InTimeOrder(calls, from)
    ensures Answers(s, calls) == UnpurgedAnswers(all, calls)
    decreases |calls|
  {
    if calls != [] {
      CallKeepsDropped(s, all, calls[0], from);
      PurgeUnobservable(AfterCall(s, calls[0]), AfterCallUnpurged(all, calls[0]), calls[1..], calls[0].now);
    }
  }

  /** The calls are about other tokens, but for those that only look. */
  predicate LeaveAlone(calls: seq<Timed>, key: string)
  {
    forall i :: 0 <= i < |calls| ==>
      match calls[i].call
      case StoreCall(userId, token, _) => userId + ":" + token != key
      case TakeCall(userId, token) => userId + ":" + token != key
      case RevokeCall(userId, token) => userId + ":" + token != key
      case _ => true
  }

  function AfterAll(s: Store, calls: seq<Timed>): Store
    decreases |calls|
  {
    if calls == [] then s else AfterAll(AfterCall(s, calls[0]), calls[1..])
  }

  /** Until somebody takes, revokes or replaces it, a token is held at least as long as it is valid. */
  lemma {:induction false} HeldWhileValid(s: Store, calls: seq<Timed>, key: string, expires: int, now: int)
    requires LeaveAlone(calls, key) && forall i :: 0 <= i < |calls| ==> calls[i].now <= now
    requires key in s.tokens && s.tokens[key] == expires
    ensures key in AfterAll(s, calls).tokens ==> AfterAll(s, calls).tokens[key] == expires
    ensures now < expires ==> key in AfterAll(s, calls).tokens
    decreases |calls|
  {
    if calls != [] {
      var t := AfterCall(s, calls[0]);
      assert calls[0].now <= now;
      assert forall i :: 0 <= i < |calls[1..]| ==> calls[1..][i] == calls[i + 1];
      if key in t.tokens {
        HeldWhileValid(t, calls[1..], key, expires, now);
      } else {
        NotHeldAgain(t, calls[1..], key);
      }
    }
  }

  lemma {:induction false} NotHeldAgain(s: Store, calls: seq<Timed>, key: string)
    requires LeaveAlone(calls, key) && key !in s.tokens
    ensures key !in AfterAll(s, calls).tokens
    decreases |calls|
  {
    if calls != [] {
      assert LeaveAlone([calls[0]], key) by {
        assert [calls[0]][0] == calls[0];
      }
      assert forall i :: 0 <= i < |calls[1..]| ==> calls[1..][i] == calls[i + 1];
      NotHeldAgain(AfterCall(s, calls[0]), calls[1..], key);
    }
  }

  /**
   A token stored for a user validates for that user, whatever other calls come in between, exactly
   until it expires.
   */
  lemma StoredValidates(
    s: Store, userId: string, token: string, expires: int, stored: int, calls: seq<Timed>, now: int)
    requires LeaveAlone(calls, userId + ":" + token) && forall i :: 0 <= i < |calls| ==> calls[i].now <= now
    ensures AnswerTo(AfterAll(AfterCall(s, Timed(StoreCall(userId, token, expires), stored)), calls).tokens,
                     Timed(ValidateCall(userId, token), now))
         == [now < expires]
  {
    var t := AfterCall(s, Timed(StoreCall(userId, token, expires), stored));
    HeldWhileValid(t, calls, userId + ":" + token, expires, now);
  }

  // ------------------------------------------------------------------
  // Logins and refreshes
  // ------------------------------------------------------------------

  /**
   The service: its store, the refreshes that have spent a token and not yet issued another,
   and three histories, of the logins, of every pair of user and token issued, and of the keys spent.
   */
  datatype Service = Service(
    store: Store, inFlight: map<int, string>, logins: nat, issued: set<(string, string)>, spent: seq<string>)

  datatype Step =
    | Login(userId: string, token: string, expires: int, now: int)
    | Spend(request: int, userId: string, token: string, now: int)
    | Reissue(request: int, token: string, expires: int, now: int)
    | GiveUp(request: int)
    | Logout(userId: string, token: string)
    | Check(userId: string, token: string)
    | Sweep(now: int)

  /** Issued tokens are random: never one issued before, and in an alphabet without the colon. */
  predicate Fresh(s: Service, token: string) {
    ColonFree(token) && forall p :: p in s.issued ==> p.1 != token
  }

  predicate Enabled(s: Service, step: Step)
  {
    match step
    case Login(_, token, _, _) => Fresh(s, token)
    case Spend(request, _, _, _) => request !in s.inFlight
    case Reissue(request, token, _, _) => request in s.inFlight && Fresh(s, token)
    case GiveUp(request) => request in s.inFlight
    case _ => true
  }

  function Next(s: Service, step: Step): Service
    requires Enabled(s, step)
  {
    match step
    case Login(userId, token, expires, now) =>
      s.(store := Stored(s.store, userId, token, expires, now), logins := s.logins + 1,
         issued := s.issued + {(userId, token)})
    case Spend(request, userId, token, now) =>
      var left := s.store.(tokens := Without(s.store.tokens, userId, token));
      if Validates(s.store.tokens, userId, token, now)
      then s.(store := left, inFlight := s.inFlight[request := userId], spent := s.spent + [Key(userId, token)])
      else s.(store := left)
    case Reissue(request, token, expires, now) =>
      var userId := s.inFlight[request];
      s.(store := Stored(s.store, userId, token, expires, now), inFlight := s.inFlight - {request},
         issued := s.issued + {(userId, token)})
    case GiveUp(request) => s.(inFlight := s.inFlight - {request})
    case Logout(userId, token) => s.(store := s.store.(tokens := Without(s.store.tokens, userId, token)))
    case Check(_, _) => s
    case Sweep(now) => s.(store := s.store.(tokens := Purged(s.store.tokens, now)))
  }

  predicate Legal(s: Service, steps: seq<Step>)
    decreases |steps|
  {
    steps == [] || (Enabled(s, steps[0]) && Legal(Next(s, steps[0]), steps[1..]))
  }

  function Run(s: Service, steps: seq<Step>): Service
    requires Legal(s, steps)
    decreases |steps|
  {
    if steps == [] then s else Run(Next(s, steps[0]), steps[1..])
  }

  /** A key is read back from its last colon, so with colon-free tokens keys are as distinct as pairs. */
  lemma KeyInjective(u: string, t: string, v: string, w: string)
    requires ColonFree(t) && ColonFree(w) && Key(u, t) == Key(v, w)
    ensures u == v && t == w
  {
    var k := Key(u, t);
    assert k[|u|] == ':' && k[|v|] == Key(v, w)[|v|] == ':';
    assert forall i :: |u| < i < |k| ==> k[i] == t[i - |u| - 1];
    assert forall i :: |v| < i < |k| ==> Key(v, w)[i] == w[i - |v| - 1];
    assert |u| == |v|;
    assert k[..|u|] == u && Key(v, w)[..|v|] == v && k[|u| + 1..] == t && Key(v, w)[|v| + 1..] == w;
  }

  ghost predicate IssuedKey(s: Service, key: string) {
    exists p :: p in s.issued && key == Key(p.0, p.1)
  }

  ghost predicate Ledger(s: Service)
  {
    && (forall p :: p in s.issued ==> ColonFree(p.1))
    && (forall k :: k in s.store.tokens ==> IssuedKey(s, k))
    && (forall i :: 0 <= i < |s.spent| ==> IssuedKey(s, s.spent[i]) && s.spent[i] !in s.store.tokens)
    && (forall i, j :: 0 <= i < j < |s.spent| ==> s.spent[i] != s.spent[j])
  }

  ghost predicate Counted(s: Service) {
    |s.store.tokens| + |s.inFlight| <= s.logins
  }

  lemma FreshKeyIsNew(s: Service, userId: string, token: string)
    requires Ledger(s) && Fresh(s, token)
    ensures !IssuedKey(s, Key(userId, token))
  {
    forall p | p in s.issued ensures Key(userId, token) != Key(p.0, p.1) {
      if Key(userId, token) == Key(p.0, p.1) {
        KeyInjective(userId, token, p.0, p.1);
      }
    }
  }

  lemma PurgedIsPart(s: Store, now: int)
    ensures forall k :: k in PurgedIfDue(s, now).tokens ==> k in s.tokens
    ensures forall k :: k in Purged(s.tokens, now) ==> k in s.tokens
    ensures |PurgedIfDue(s, now).tokens| <= |s.tokens| && |Purged(s.tokens, now)| <= |s.tokens|
  {
    assert Purged(s.tokens, now).Keys <= s.tokens.Keys;
    SubsetSize(Purged(s.tokens, now).Keys, s.tokens.Keys);
    assert |Purged(s.tokens, now).Keys| == |Purged(s.tokens, now)| && |s.tokens.Keys| == |s.tokens|;
  }

  /** Issuing a fresh token keeps the ledger. */
  lemma IssueKeepsLedger(s: Service, after: Service, userId: string, token: string, expires: int, now: int)
    requires Ledger(s) && Fresh(s, token)
    requires after.store == Stored(s.store, userId, token, expires, now) && after.spent == s.spent
    requires after.issued == s.issued + {(userId, token)}
    ensures Ledger(after)
  {
    FreshKeyIsNew(s, userId, token);
    PurgedIsPart(s.store, now);
    forall k | IssuedKey(s, k) ensures IssuedKey(after, k) {
      var p :| p in s.issued && k == Key(p.0, p.1);
      assert p in after.issued;
    }
    assert (userId, token) in after.issued;
    assert IssuedKey(after, Key(userId, token));
  }

  lemma SpendKeepsLedger(s: Service, step: Step)
    requires Ledger(s) && step.Spend? && Enabled(s, step)
    ensures Ledger(Next(s, step))
  {
    var after := Next(s, step);
    forall k | IssuedKey(s, k) ensures IssuedKey(after, k) {
    }
  }

  lemma LedgerKept(s: Service, step: Step)
    requires Ledger(s) && Enabled(s, step)
    ensures Ledger(Next(s, step))
  {
    match step
    case Login(userId, token, expires, now) => IssueKeepsLedger(s, Next(s, step), userId, token, expires, now);
    case Reissue(request, token, expires, now) =>
      IssueKeepsLedger(s, Next(s, step), s.inFlight[request], token, expires, now);
    case Spend(_, _, _, _) => SpendKeepsLedger(s, step);
    case _ =>
      forall k ensures IssuedKey(s, k) == IssuedKey(Next(s, step), k) {
      }
  }

  lemma WithoutSize(m: map<string, int>, k: string)
    ensures |m - {k}| == |m| - (if k in m then 1 else 0)
  {
    assert (m - {k}).Keys == m.Keys - {k};
  }

  lemma InFlightSize(m: map<int, string>, k: int, v: string)
    ensures |m - {k}| == |m| - (if k in m then 1 else 0)
    ensures |m[k := v]| == |m| + (if k in m then 0 else 1)
  {
    assert (m - {k}).Keys == m.Keys - {k};
    assert m[k := v].Keys == m.Keys + {k};
  }

  lemma StoredSize(s: Store, userId: string, token: string, expires: int, now: int)
    ensures |Stored(s, userId, token, expires, now).tokens| <= |s.tokens| + 1
  {
    PurgedIsPart(s, now);
    var m := PurgedIfDue(s, now).tokens;
    assert m[Key(userId, token) := expires].Keys == m.Keys + {Key(userId, token)};
  }

  lemma CountedKept(s: Service, step: Step)
    requires Counted(s) && Enabled(s, step)
    ensures Counted(Next(s, step))
  {
    match step
    case Login(userId, token, expires, now) => StoredSize(s.store, userId, token, expires, now);
    case Spend(request, userId, token, _) =>
      WithoutSize(s.store.tokens, Key(userId, token));
      InFlightSize(s.inFlight, request, userId);
    case Reissue(request, token, expires, now) =>
      StoredSize(s.store, s.inFlight[request], token, expires, now);
      InFlightSize(s.inFlight, request, "");
    case GiveUp(request) => InFlightSize(s.inFlight, request, "");
    case Logout(userId, token) => WithoutSize(s.store.tokens, Key(userId, token));
    case Check(_, _) =>
    case Sweep(now) => PurgedIsPart(s.store, now);
  }

  function NewService(purgeIntervalSeconds: int): Service {
    Service(Store(map[], 0, purgeIntervalSeconds), map[], 0, {}, [])
  }

  lemma {:induction false} LedgerAlways(s: Service, steps: seq<Step>)
    requires Ledger(s) && Counted(s) && Legal(s, steps)
    ensures Ledger(Run(s, steps)) && Counted(Run(s, steps))
    decreases |steps|
  {
    if steps != [] {
      LedgerKept(s, steps[0]);
      CountedKept(s, steps[0]);
      LedgerAlways(Next(s, steps[0]), steps[1..]);
    }
  }

  /**
   Under every interleaving of logins, refreshes, logouts and sweeps: no refresh token is spent
   twice, and the tokens held, with the refreshes in flight, never outnumber the logins.
   */
  lemma TokensAlways(purgeIntervalSeconds: int, steps: seq<Step>)
    requires Legal(NewService(purgeIntervalSeconds), steps)
    ensures var s := Run(NewService(purgeIntervalSeconds), steps);
            && (forall i, j :: 0 <= i < j < |s.spent| ==> s.spent[i] != s.spent[j])
            && |s.store.tokens| + |s.inFlight| <= s.logins
  {
    LedgerAlways(NewService(purgeIntervalSeconds), steps);
  }

  // ------------------------------------------------------------------
  // Whose token a key holds
  // ------------------------------------------------------------------

  /**
   A token that can be taken has not been spent, and it was issued to the user it is taken for
   exactly when it has no colon in it.
   */
  lemma OnlyIssuedUnspentTokensAreTaken(s: Service, userId: string, token: string, now: int)
    requires Ledger(s) && Validates(s.store.tokens, userId, token, now)
    ensures Key(userId, token) !in s.spent
    ensures (userId, token) in s.issued <==> ColonFree(token)
  {
    assert IssuedKey(s, Key(userId, token));
    var p :| p in s.issued && Key(userId, token) == Key(p.0, p.1);
    if ColonFree(token) {
      KeyInjective(userId, token, p.0, p.1);
    }
  }

  /** One user id goes on from another past a colon. */
  predicate Extends(longer: string, userId: string) {
    |userId| < |longer| && longer[..|userId|] == userId && longer[|userId|] == ':'
  }

  /** A key read with a colon in its token is the key of a user whose id goes on from the one read. */
  lemma ColonInTokenExtends(userId: string, token: string, owner: string, issued: string)
    requires Key(userId, token) == Key(owner, issued) && ColonFree(issued) && !ColonFree(token)
    ensures Extends(owner, userId)
  {
    var k := Key(userId, token);
    var i :| 0 <= i < |token| && token[i] == ':';
    assert k[|userId| + 1 + i] == ':';
    assert forall j :: |owner| < j < |k| ==> Key(owner, issued)[j] == issued[j - |owner| - 1];
    assert |userId| < |owner|;
    assert owner == Key(owner, issued)[..|owner|];
    assert k[..|userId|] == userId && k[|userId|] == ':';
  }

  /** Tokens have been issued to these users alone. */
  ghost predicate IssuedTo(users: set<string>, s: Service) {
    forall p :: p in s.issued ==> p.0 in users
  }

  /** A login or a refresh that gets as far as issuing names a user there is. */
  predicate NamesUser(users: set<string>, s: Service, step: Step)
    requires Enabled(s, step)
  {
    match step
    case Login(userId, _, _, _) => userId in users
    case Reissue(request, _, _, _) => s.inFlight[request] in users
    case _ => true
  }

  predicate AllNameUsers(users: set<string>, s: Service, steps: seq<Step>)
    requires Legal(s, steps)
    decreases |steps|
  {
    steps == [] || (NamesUser(users, s, steps[0]) && AllNameUsers(users, Next(s, steps[0]), steps[1..]))
  }

  lemma {:induction false} IssuedToAlways(users: set<string>, s: Service, steps: seq<Step>)
    requires IssuedTo(users, s) && Legal(s, steps) && AllNameUsers(users, s, steps)
    ensures IssuedTo(users, Run(s, steps))
    decreases |steps|
  {
    if steps != [] {
      IssuedToAlways(users, Next(s, steps[0]), steps[1..]);
    }
  }

  /** With no such pair of ids, what is taken for a user was issued to that user, colon or no colon. */
  lemma TakenForItsOwner(users: set<string>, s: Service, userId: string, token: string, now: int)
    requires Ledger(s) && IssuedTo(users, s) && Validates(s.store.tokens, userId, token, now)
    requires forall u :: u in users ==> !Extends(u, userId)
    ensures (userId, token) in s.issued
  {
    assert IssuedKey(s, Key(userId, token));
    var p :| p in s.issued && Key(userId, token) == Key(p.0, p.1);
    if ColonFree(token) {
      KeyInjective(userId, token, p.0, p.1);
    } else {
      ColonInTokenExtends(userId, token, p.0, p.1);
    }
  }

  /** After some run of the host, a token is taken for a user it was not issued to. */
  ghost predicate TakesAnothers(users: set<string>, userId: string, purgeIntervalSeconds: int)
  {
    exists steps, token, now :: Legal(NewService(purgeIntervalSeconds), steps)
      && AllNameUsers(users, NewService(purgeIntervalSeconds), steps)
      && Validates(Run(NewService(purgeIntervalSeconds), steps).store.tokens, userId, token, now)
      && (userId, token) !in Run(NewService(purgeIntervalSeconds), steps).issued
  }

  /** One login is enough: the rest of the longer id and its token read as a token of the shorter one. */
  lemma LongerIdIsMisread(
    owner: string, userId: string, purgeIntervalSeconds: int)
    returns (steps: seq<Step>, token: string)
    requires Extends(owner, userId)
    ensures Legal(NewService(purgeIntervalSeconds), steps)
            && AllNameUsers({owner}, NewService(purgeIntervalSeconds), steps)
    ensures var s := Run(NewService(purgeIntervalSeconds), steps);
            s.issued == {(owner, "t")} && Validates(s.store.tokens, userId, token, 0) && (userId, token) !in s.issued
  {
    var login := Login(owner, "t", 1, 0);
    steps, token := [login], owner[|userId| + 1..] + ":" + "t";
    var s := NewService(purgeIntervalSeconds);
    assert Enabled(s, login) && NamesUser({owner}, s, login);
    assert steps[1..] == [];
    assert Run(s, steps) == Next(s, login);
    assert owner == userId + ":" + owner[|userId| + 1..];
    assert Key(userId, token) == Key(owner, "t");
  }

  lemma {:induction false} MoreUsers(few: set<string>, users: set<string>, s: Service, steps: seq<Step>)
    requires few <= users && Legal(s, steps) && AllNameUsers(few, s, steps)
    ensures AllNameUsers(users, s, steps)
    decreases |steps|
  {
    if steps != [] {
      MoreUsers(few, users, Next(s, steps[0]), steps[1..]);
    }
  }

  /**
   The exact condition on a host's users: it happens to a user exactly when another's id goes on from
   it past a colon.
   */
  lemma TakesAnothersIffIdExtends(users: set<string>, userId: string, purgeIntervalSeconds: int)
    ensures TakesAnothers(users, userId, purgeIntervalSeconds) <==> exists u :: u in users && Extends(u, userId)
  {
    var s := NewService(purgeIntervalSeconds);
    if TakesAnothers(users, userId, purgeIntervalSeconds) {
      var steps, token, now :| Legal(s, steps) && AllNameUsers(users, s, steps)
        && Validates(Run(s, steps).store.tokens, userId, token, now) && (userId, token) !in Run(s, steps).issued;
      LedgerAlways(s, steps);
      IssuedToAlways(users, s, steps);
      if forall u :: u in users ==> !Extends(u, userId) {
        TakenForItsOwner(users, Run(s, steps), userId, token, now);
      }
    }
    if u :| u in users && Extends(u, userId) {
      var steps, token := LongerIdIsMisread(u, userId, purgeIntervalSeconds);
      MoreUsers({u}, users, s, steps);
      assert Legal(s, steps) && Validates(Run(s, steps).store.tokens, userId, token, 0);
    }
  }

  // ------------------------------------------------------------------
  // The service's own methods
  // ------------------------------------------------------------------

  class TokenService {
    const refreshTokens: RefreshTokenStore
    const users: set<string>
    const refreshTokenDays: int

    constructor (refreshTokens: RefreshTokenStore, users: set<string>, refreshTokenDays: int)
      ensures this.refreshTokens == refreshTokens && this.users == users && this.refreshTokenDays == refreshTokenDays
    {
      this.refreshTokens, this.users, this.refreshTokenDays := refreshTokens, users, refreshTokenDays;
    }

    /** Issues a refresh token, unless signing the access token beside it fails. */
    method IssueAt(userId: string, issued: string, signs: bool, now: int) returns (r: Option<string>)
      modifies refreshTokens
      ensures r == if signs then Some(issued) else None
      ensures refreshTokens.State() == if signs
        then Stored(old(refreshTokens.State()), userId, issued, now + refreshTokenDays * 86_400 * SECOND, now)
        else old(refreshTokens.State())
    {
      if !signs {
        return None;
      }
      refreshTokens.StoreToken(userId, issued, now + refreshTokenDays * 86_400 * SECOND, now);
      r := Some(issued);
    }

    /** Spends a refresh token and issues another. The token is spent whatever comes of it. */
    method Refresh(userId: string, token: string, issued: string, signs: bool, now: int) returns (r: Option<string>)
      modifies refreshTokens
      ensures r ==
              if Validates(old(refreshTokens.tokens), userId, token, now) && userId in users && signs
              then Some(issued) else None
      ensures refreshTokens.State() ==
              (var spent := old(refreshTokens.State()).(tokens := Without(old(refreshTokens.tokens), userId, token));
               if r.Some? then Stored(spent, userId, issued, now + refreshTokenDays * 86_400 * SECOND, now) else spent)
      ensures issued != token ==> !Validates(refreshTokens.tokens, userId, token, now)
      ensures r.Some? && refreshTokenDays > 0 ==> Validates(refreshTokens.tokens, userId, issued, now)
      ensures r.Some? ==> forall s: Service :: Ledger(s) && s.store == old(refreshTokens.State()) ==>
                && Key(userId, token) !in s.spent && ((userId, token) in s.issued <==> ColonFree(token))
                && (IssuedTo(users, s) && (forall u :: u in users ==> !Extends(u, userId)) ==>
                   (userId, token) in s.issued)
    {
      if Validates(refreshTokens.tokens, userId, token, now) {
        forall s: Service | Ledger(s) && s.store == refreshTokens.State()
          ensures Key(userId, token) !in s.spent && ((userId, token) in s.issued <==> ColonFree(token))
          ensures IssuedTo(users, s) && (forall u :: u in users ==> !Extends(u, userId)) ==> (userId, token) in s.issued
        {
          OnlyIssuedUnspentTokensAreTaken(s, userId, token, now);
          if IssuedTo(users, s) && (forall u :: u in users ==> !Extends(u, userId)) {
            TakenForItsOwner(users, s, userId, token, now);
          }
        }
      }
      var valid := refreshTokens.Take(userId, token, now);
      if !valid {
        return None;
      }
      if userId !in users {
        return None;
      }
      r := IssueAt(userId, issued, signs, now);
      if issued != token {
        assert Key(userId, issued)[|userId| + 1..] == issued && Key(userId, token)[|userId| + 1..] == token;
      }
    }
  }
}
