/** Refresh-token families: the keys kept in the store, the service that sets
    and deletes them, and what holds over any run of logins, rotations,
    revocations and key expiry. */
module RefreshTokens {
  import opened Rows

  type Token = string
  type Family = string

  /** The two kinds of key, each with the time at which the store drops it. */
  datatype Record = Record(user: nat, family: Family, expiresAt: Time)
  datatype Pointer = Pointer(token: Token, expiresAt: Time)

  datatype Keys = Keys(records: map<Token, Record>, pointers: map<Family, Pointer>)

  datatype AuthError = RefreshInvalid | ReuseDetected

  function FindRecord(k: Keys, token: Token, now: Time): Option<Record> {
    if token in k.records && now < k.records[token].expiresAt then Some(k.records[token]) else None
  }

  function Current(k: Keys, family: Family, now: Time): Option<Token> {
    if family in k.pointers && now < k.pointers[family].expiresAt then Some(k.pointers[family].token) else None
  }

  function Issued(k: Keys, user: nat, family: Family, token: Token, expiresAt: Time): Keys {
    Keys(k.records[token := Record(user, family, expiresAt)], k.pointers[family := Pointer(token, expiresAt)])
  }

  /** Deletes the family's pointer and the record of its current token only. */
  function FamilyRevoked(k: Keys, family: Family, now: Time): Keys {
    var current := Current(k, family, now);
    Keys(if current.Some? then k.records - {current.value} else k.records, k.pointers - {family})
  }

  function TokenRevoked(k: Keys, token: Token, now: Time): Keys {
    var record := FindRecord(k, token, now);
    if record.None? then k else FamilyRevoked(k, record.value.family, now)
  }

  /** The token is live and is its family's current one. */
  predicate Accepts(k: Keys, token: Token, now: Time) {
    var record := FindRecord(k, token, now);
    record.Some? && Current(k, record.value.family, now) == Some(token)
  }

  function Rotated(k: Keys, oldToken: Token, newToken: Token, ttl: nat, now: Time): (Keys, Result<(Token, nat, Family), AuthError>) {
    var record := FindRecord(k, oldToken, now);
    if record.None? then (k, Err(RefreshInvalid))
    else
      var family := record.value.family;
      if Current(k, family, now) != Some(oldToken) then (FamilyRevoked(k, family, now), Err(ReuseDetected))
      else (Issued(k, record.value.user, family, newToken, now + ttl), Ok((newToken, record.value.user, family)))
  }

  /** The store's commands are atomic, and so is each method; the clock and the
      supply of random tokens are arguments. */
  class RefreshTokenService {
    const ttl: nat
    var records: map<Token, Record>
    var pointers: map<Family, Pointer>

    constructor (ttl: nat)
      ensures this.ttl == ttl && Stored() == Keys(map[], map[])
    {
      this.ttl := ttl;
      records, pointers := map[], map[];
    }

    function Stored(): Keys
      reads this
    {
      Keys(records, pointers)
    }

    /** Without a family, a new one is opened. */
    method Issue(user: nat, familyId: Option<Family>, token: Token, newFamily: Family, now: Time)
      returns (issued: Token, family: Family)
      modifies this
      ensures issued == token && family == if familyId.Some? then familyId.value else newFamily
      ensures Stored() == Issued(old(Stored()), user, family, token, now + ttl)
    {
      family := newFamily;
      if familyId.Some? {
        family := familyId.value;
      }
      records := records[token := Record(user, family, now + ttl)];
      pointers := pointers[family := Pointer(token, now + ttl)];
      issued := token;
    }

    method Peek(token: Token, now: Time) returns (found: Option<(nat, Family)>)
      ensures found == match FindRecord(Stored(), token, now)
        case None => None
        case Some(record) => Some((record.user, record.family))
    {
      if token !in records || records[token].expiresAt <= now {
        return None;
      }
      return Some((records[token].user, records[token].family));
    }

    method Rotate(oldToken: Token, newToken: Token, now: Time) returns (r: Result<(Token, nat, Family), AuthError>)
      modifies this
      ensures (Stored(), r) == Rotated(old(Stored()), oldToken, newToken, ttl, now)
    {
      var found := Peek(oldToken, now);
      if found.None? {
        return Err(RefreshInvalid);
      }
      var (user, family) := found.value;
      if Current(Stored(), family, now) != Some(oldToken) {
        RevokeFamily(family, now);
        return Err(ReuseDetected);
      }
      var token, _ := Issue(user, Some(family), newToken, "", now);
      return Ok((token, user, family));
    }

    method RevokeByToken(token: Token, now: Time)
      modifies this
      ensures Stored() == TokenRevoked(old(Stored()), token, now)
    {
      var found := Peek(token, now);
      if found.Some? {
        RevokeFamily(found.value.1, now);
      }
    }

    method RevokeFamily(family: Family, now: Time)
      modifies this
      ensures Stored() == FamilyRevoked(old(Stored()), family, now)
    {
      var current := Current(Stored(), family, now);
      if current.Some? {
        records := records - {current.value};
      }
      pointers := pointers - {family};
    }
  }

  // ----- runs -----

  datatype Step =
    | Login(user: nat, token: Token, family: Family, at: Time)
    | Refresh(token: Token, newToken: Token, at: Time)
    | Logout(token: Token, at: Time)
    | EndFamily(family: Family, at: Time)
    | Wait(at: Time)

  /** The keys, the clock, and every token and family handed out so far. */
  datatype World = World(keys: Keys, clock: Time, tokens: set<Token>, families: set<Family>)

  function Start(clock: Time): World {
    World(Keys(map[], map[]), clock, {}, {})
  }

  /** Time does not run backwards, and random tokens and family ids are new. */
  predicate Possible(w: World, step: Step) {
    && w.clock <= step.at
    && match step
      case Login(_, token, family, _) => token !in w.tokens && family !in w.families
      case Refresh(_, newToken, _) => newToken !in w.tokens
      case _ => true
  }

  function Apply(w: World, step: Step, ttl: nat): World {
    match step
    case Login(user, token, family, at) =>
      World(Issued(w.keys, user, family, token, at + ttl), at, w.tokens + {token}, w.families + {family})
    case Refresh(token, newToken, at) =>
      w.(keys := Rotated(w.keys, token, newToken, ttl, at).0, clock := at, tokens := w.tokens + {newToken})
    case Logout(token, at) => w.(keys := TokenRevoked(w.keys, token, at), clock := at)
    case EndFamily(family, at) => w.(keys := FamilyRevoked(w.keys, family, at), clock := at)
    case Wait(at) => w.(clock := at)
  }

  function Run(w: World, steps: seq<Step>, ttl: nat): World {
    if steps == [] then w else Apply(Run(w, steps[..|steps| - 1], ttl), steps[|steps| - 1], ttl)
  }

  ghost predicate ValidRun(w: World, steps: seq<Step>, ttl: nat) {
    steps == [] ||
    (ValidRun(w, steps[..|steps| - 1], ttl) && Possible(Run(w, steps[..|steps| - 1], ttl), steps[|steps| - 1]))
  }

  // ----- the invariant -----

  predicate PointerOk(w: World, family: Family)
    requires family in w.keys.pointers
  {
    var p := w.keys.pointers[family];
    && family in w.families && p.token in w.keys.records
    && w.keys.records[p.token].family == family && w.keys.records[p.token].expiresAt == p.expiresAt
  }

  ghost predicate Inv(w: World) {
    && (forall token :: token in w.keys.records ==> token in w.tokens && w.keys.records[token].family in w.families)
    && (forall family :: family in w.keys.pointers ==> PointerOk(w, family))
  }

  lemma RevokeKeeps(w: World, family: Family, at: Time)
    requires Inv(w)
    ensures Inv(w.(keys := FamilyRevoked(w.keys, family, at), clock := at))
  {
  }

  lemma IssueKeeps(w: World, user: nat, family: Family, token: Token, expiresAt: Time, at: Time)
    requires Inv(w) && token !in w.tokens
    ensures Inv(World(Issued(w.keys, user, family, token, expiresAt), at, w.tokens + {token}, w.families + {family}))
  {
  }

  lemma StepKeeps(w: World, step: Step, ttl: nat)
    requires Inv(w) && Possible(w, step)
    ensures Inv(Apply(w, step, ttl))
  {
    match step
    case Login(user, token, family, at) => IssueKeeps(w, user, family, token, at + ttl, at);
    case Logout(token, at) =>
      var record := FindRecord(w.keys, token, at);
      if record.Some? {
        RevokeKeeps(w, record.value.family, at);
      }
    case EndFamily(family, at) => RevokeKeeps(w, family, at);
    case Wait(at) => assert forall family :: family in w.keys.pointers ==> PointerOk(w, family);
    case Refresh(token, newToken, at) =>
      var record := FindRecord(w.keys, token, at);
      if record.Some? {
        var family := record.value.family;
        if Current(w.keys, family, at) != Some(token) {
          RevokeKeeps(w, family, at);
        } else {
          IssueKeeps(w, record.value.user, family, newToken, at + ttl, at);
          assert w.families + {family} == w.families;
        }
      }
  }

  lemma {:induction false} RunKeeps(w: World, steps: seq<Step>, ttl: nat)
    requires Inv(w) && ValidRun(w, steps, ttl)
    ensures Inv(Run(w, steps, ttl))
  {
    if steps != [] {
      RunKeeps(w, steps[..|steps| - 1], ttl);
      StepKeeps(Run(w, steps[..|steps| - 1], ttl), steps[|steps| - 1], ttl);
    }
  }

  // ----- what holds after any run -----

  /** A token is accepted if and only if its family's pointer is live and names
      it: a live pointer never outlives, or dies before, its token's record. */
  lemma PointerAndRecordLiveTogether(clock: Time, steps: seq<Step>, ttl: nat, token: Token, family: Family, now: Time)
    requires ValidRun(Start(clock), steps, ttl)
    ensures var k := Run(Start(clock), steps, ttl).keys;
      Current(k, family, now) == Some(token) <==>
      Accepts(k, token, now) && FindRecord(k, token, now).value.family == family
  {
    RunKeeps(Start(clock), steps, ttl);
    var w := Run(Start(clock), steps, ttl);
    if Current(w.keys, family, now) == Some(token) {
      assert PointerOk(w, family);
    }
  }

  /** The family can no longer be used. */
  predicate Dead(w: World, family: Family) {
    family in w.families && Current(w.keys, family, w.clock).None?
  }

  lemma DeadRefuses(w: World, family: Family, token: Token, now: Time)
    requires Dead(w, family) && w.clock <= now
    ensures Accepts(w.keys, token, now) ==> FindRecord(w.keys, token, now).value.family != family
  {
  }

  lemma DeadStays(w: World, step: Step, family: Family, ttl: nat)
    requires Possible(w, step) && Dead(w, family)
    ensures Dead(Apply(w, step, ttl), family)
  {
  }

  /** Once a family is dead, no later call accepts any of its tokens. */
  lemma {:induction false} DeadForever(w: World, steps: seq<Step>, ttl: nat, family: Family, token: Token, now: Time)
    requires ValidRun(w, steps, ttl) && Dead(w, family) && Run(w, steps, ttl).clock <= now
    ensures Dead(Run(w, steps, ttl), family)
    ensures Accepts(Run(w, steps, ttl).keys, token, now) ==>
      FindRecord(Run(w, steps, ttl).keys, token, now).value.family != family
  {
    if steps != [] {
      var before := Run(w, steps[..|steps| - 1], ttl);
      DeadForever(w, steps[..|steps| - 1], ttl, family, token, before.clock);
      DeadStays(before, steps[|steps| - 1], family, ttl);
    }
    DeadRefuses(Run(w, steps, ttl), family, token, now);
  }

  /** How families die: a live token that is not the current one is presented,
      any live token of the family is logged out, the family is ended, or its
      pointer's time passes. */
  lemma WhatKills(w: World, step: Step, ttl: nat, family: Family)
    requires Inv(w) && Possible(w, step) && family in w.families
    requires match step
      case Refresh(token, _, at) =>
        FindRecord(w.keys, token, at).Some? && FindRecord(w.keys, token, at).value.family == family &&
        !Accepts(w.keys, token, at)
      case Logout(token, at) =>
        FindRecord(w.keys, token, at).Some? && FindRecord(w.keys, token, at).value.family == family
      case EndFamily(ended, _) => ended == family
      case Wait(at) => family in w.keys.pointers ==> w.keys.pointers[family].expiresAt <= at
      case Login(_, _, _, _) => false
    ensures Dead(Apply(w, step, ttl), family)
  {
  }

  /** Ending a family takes its pointer, and with a live pointer the record of the
      token it names; every other key stays. */
  lemma RevocationOutcome(k: Keys, family: Family, now: Time, token: Token, other: Family)
    ensures var k' := FamilyRevoked(k, family, now);
      var named := family in k.pointers && now < k.pointers[family].expiresAt && k.pointers[family].token == token;
      && (token in k'.records <==> token in k.records && !named)
      && (token in k'.records ==> k'.records[token] == k.records[token])
      && (other in k'.pointers <==> other in k.pointers && other != family)
      && (other in k'.pointers ==> k'.pointers[other] == k.pointers[other])
  {
  }

  /** Logging out a live token ends its family, and a dead one nothing. */
  lemma LogoutOutcome(k: Keys, token: Token, now: Time)
    ensures TokenRevoked(k, token, now) ==
      if token in k.records && now < k.records[token].expiresAt then FamilyRevoked(k, k.records[token].family, now) else k
  {
  }

  /** A refused refresh says why: there is no live record of the token, and nothing
      changes, or there is one that is not its family's current token, and the
      family ends. */
  lemma RefusalSaysWhy(k: Keys, token: Token, newToken: Token, ttl: nat, at: Time)
    ensures var (k', r) := Rotated(k, token, newToken, ttl, at);
      var live := token in k.records && at < k.records[token].expiresAt;
      && (r == Err(RefreshInvalid) <==> !live)
      && (r == Err(RefreshInvalid) ==> k' == k)
      && (r == Err(ReuseDetected) <==> live && !Accepts(k, token, at))
      && (r == Err(ReuseDetected) ==> k.records[token].family !in k'.pointers)
  {
  }

  /** A token that is neither used nor revoked is accepted for exactly the lifetime
      that its issue gives it, and for the user and family it was issued for. */
  lemma LifetimeIsExact(w: World, user: nat, token: Token, family: Family, ttl: nat, at: Time, now: Time)
    requires Possible(w, Login(user, token, family, at))
    ensures var k := Apply(w, Login(user, token, family, at), ttl).keys;
      && (Accepts(k, token, now) <==> now < at + ttl)
      && (now < at + ttl ==> FindRecord(k, token, now) == Some(Record(user, family, at + ttl)))
  {
  }

  /** A refresh succeeds exactly when its token is accepted, and then the old
      token is spent and the new one is the family's only accepted token. */
  lemma RefreshHandsOver(w: World, token: Token, newToken: Token, ttl: nat, at: Time, other: Token)
    requires Inv(w) && Possible(w, Refresh(token, newToken, at)) && 0 < ttl
    ensures var (k', r) := Rotated(w.keys, token, newToken, ttl, at);
      (r.Ok? <==> Accepts(w.keys, token, at)) &&
      (r.Ok? ==>
        && r.value == (newToken, w.keys.records[token].user, w.keys.records[token].family)
        && (forall now :: Accepts(k', newToken, now) <==> now < at + ttl)
        && !Accepts(k', token, at)
        && (Accepts(k', other, at) && k'.records[other].family == r.value.2 ==> other == newToken))
  {
  }

  predicate RefreshAccepted(w: World, steps: seq<Step>, i: nat, token: Token, ttl: nat)
    requires i < |steps|
  {
    steps[i].Refresh? && steps[i].token == token && Accepts(Run(w, steps[..i], ttl).keys, token, steps[i].at)
  }

  /** No pointer names the token, and it is not one that could be issued again. */
  ghost predicate Spent(w: World, token: Token) {
    token in w.tokens && forall family :: family in w.keys.pointers ==> w.keys.pointers[family].token != token
  }

  lemma {:induction false} SpentStays(w: World, steps: seq<Step>, ttl: nat, i: nat, token: Token)
    requires ValidRun(w, steps, ttl) && i <= |steps| && Spent(Run(w, steps[..i], ttl), token)
    ensures Spent(Run(w, steps, ttl), token)
    decreases |steps|
  {
    if i == |steps| {
      assert steps[..i] == steps;
    } else {
      var n := |steps| - 1;
      assert steps[..n][..i] == steps[..i];
      SpentStays(w, steps[..n], ttl, i, token);
    }
  }

  lemma {:induction false} PrefixValid(w: World, steps: seq<Step>, ttl: nat, i: nat)
    requires ValidRun(w, steps, ttl) && i <= |steps|
    ensures ValidRun(w, steps[..i], ttl)
    ensures i < |steps| ==> Possible(Run(w, steps[..i], ttl), steps[i])
    decreases |steps|
  {
    if i == |steps| {
      assert steps[..i] == steps;
    } else if i < |steps| - 1 {
      var n := |steps| - 1;
      PrefixValid(w, steps[..n], ttl, i);
      assert steps[..n][..i] == steps[..i];
    }
  }

  /** In any run, a token is accepted by refresh at most once. */
  lemma AcceptedAtMostOnce(clock: Time, steps: seq<Step>, ttl: nat, i: nat, j: nat, token: Token)
    requires ValidRun(Start(clock), steps, ttl) && i < j < |steps|
    requires RefreshAccepted(Start(clock), steps, i, token, ttl)
    ensures !RefreshAccepted(Start(clock), steps, j, token, ttl)
  {
    var w := Start(clock);
    PrefixValid(w, steps, ttl, i);
    PrefixValid(w, steps, ttl, j);
    RunKeeps(w, steps[..i], ttl);
    var before, after := Run(w, steps[..i], ttl), Run(w, steps[..i + 1], ttl);
    assert steps[..i + 1][..i] == steps[..i];
    AcceptedIsSpent(before, steps[i], ttl);
    assert steps[..j][..i + 1] == steps[..i + 1];
    SpentStays(w, steps[..j], ttl, i + 1, token);
  }

  lemma AcceptedIsSpent(w: World, step: Step, ttl: nat)
    requires Inv(w) && Possible(w, step) && step.Refresh? && Accepts(w.keys, step.token, step.at)
    ensures Spent(Apply(w, step, ttl), step.token)
  {
  }
}
