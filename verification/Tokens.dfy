/**
 The time window of a created token.  Times are nanoseconds since the Unix
 epoch; a token is printed with whole seconds and validated after it was read
 back (sections 4.1.4 to 4.1.6 of RFC 7519).
 */
module Tokens {
  import opened Options

  type Time = int

  const SECOND: Time := 1_000_000_000
  const MAX_SKEW: Time := 5 * SECOND
  /** January 1 of year 1, the time value Go calls zero. */
  const ZERO_TIME: Time := -62_135_596_800 * SECOND
  const NIL_UUID := "00000000-0000-0000-0000-000000000000"

  datatype Claims = Claims(
    id: string, issuer: string, issuedAt: Time, notBefore: Time, expires: Time, audience: string, userId: string,
    userName: string, email: string, realmIds: seq<string>, adminRealmIds: seq<string>, amr: seq<string>,
    authorizedParty: string)

  datatype TokenOptions = TokenOptions(audience: string, projectId: string, id: string, userId: string)

  datatype Creator = Creator(issuer: string, hasKey: bool, lifetime: Time)

  /** The bound is 5 nanoseconds, not 5 seconds: the duration is compared with a bare number. */
  function NewCreator(issuer: string, hasKey: bool, lifetime: Time): (c: Creator)
    ensures c.lifetime >= 5 && c.issuer == issuer && c.hasKey == hasKey
    ensures lifetime >= 5 ==> c.lifetime == lifetime
    ensures lifetime < 5 ==> c.lifetime == 5 * SECOND
  {
    Creator(issuer, hasKey, if lifetime < 5 then 5 * SECOND else lifetime)
  }

  /** What a validator can rely on in a token created at `now`. */
  predicate Issued(c: Creator, now: Time, claims: Claims) {
    && claims.issuedAt == now && claims.notBefore == now - MAX_SKEW && claims.expires == now + c.lifetime
    && claims.userId != "" && claims.issuer == claims.authorizedParty == c.issuer
  }

  /** `uuid` is the random id used when none is given; without a key there is no token. */
  method Create(c: Creator, reference: string, options: TokenOptions, now: Time, uuid: string)
    returns (claims: Option<Claims>)
    ensures claims.None? <==> !c.hasKey
    ensures claims.Some? ==> Issued(c, now, claims.value)
    ensures claims.Some? ==>
      && claims.value.id == (if options.id == "" then uuid else options.id)
      && claims.value.userId == (if options.userId == "" then NIL_UUID else options.userId)
      && claims.value.realmIds == (if options.projectId == "" then [] else [options.projectId])
      && claims.value.adminRealmIds == claims.value.realmIds
      && claims.value.amr == [reference] && claims.value.audience == options.audience
  {
    if !c.hasKey {
      return None;
    }
    var opts := options;
    if opts.id == "" {
      opts := opts.(id := uuid);
    }
    if opts.userId == "" {
      opts := opts.(userId := NIL_UUID);
    }
    var token := Claims(
      opts.id, c.issuer, now, now - MAX_SKEW, now + c.lifetime, opts.audience, opts.userId,
      "@" + c.issuer, c.issuer + "@contiamo.com", [], [], [reference], c.issuer);
    if opts.projectId != "" {
      token := token.(
        adminRealmIds := token.adminRealmIds + [opts.projectId], realmIds := token.realmIds + [opts.projectId]);
    }
    return Some(token);
  }

  // ---- Through the wire.

  function MarshalTimestamp(t: Time): int {
    t / SECOND
  }

  function UnmarshalTimestamp(seconds: int): Time {
    seconds * SECOND
  }

  function Floor(t: Time): Time {
    UnmarshalTimestamp(MarshalTimestamp(t))
  }

  function ReadBack(c: Claims): Claims {
    c.(issuedAt := Floor(c.issuedAt), notBefore := Floor(c.notBefore), expires := Floor(c.expires))
  }

  // ---- Validation.

  datatype Verdict = Valid | ErrMissingSub | ErrExpiration | ErrTooEarly | ErrTooSoon | ErrInvalidParty

  predicate VerifyExpiresAt(c: Claims, cmp: Time, required: bool) {
    if c.expires == ZERO_TIME then !required else cmp < c.expires
  }

  predicate VerifyNotBefore(c: Claims, cmp: Time, required: bool) {
    if c.notBefore == ZERO_TIME then !required else cmp > c.notBefore || cmp == c.notBefore
  }

  predicate VerifyIssuedAt(c: Claims, cmp: Time, required: bool) {
    if c.issuedAt == ZERO_TIME then !required else cmp > c.issuedAt || cmp == c.issuedAt
  }

  predicate VerifyIssuer(c: Claims, cmp: string, required: bool) {
    if c.issuer == "" then !required else c.issuer == cmp
  }

  predicate VerifyAuthorizedParty(c: Claims) {
    c.authorizedParty == "" || VerifyIssuer(c, c.authorizedParty, true)
  }

  function Validate(c: Claims, now: Time): Verdict {
    if c.userId == "" then ErrMissingSub
    else if !VerifyExpiresAt(c, now, true) then ErrExpiration
    else if !VerifyNotBefore(c, now, true) then ErrTooEarly
    else if !VerifyIssuedAt(c, now, true) then ErrTooSoon
    else if !VerifyAuthorizedParty(c) then ErrInvalidParty
    else Valid
  }

  /** Claims are valid exactly if they name a subject, their times are there and fit, and their party is the issuer. */
  lemma ValidIff(c: Claims, now: Time)
    ensures Validate(c, now) == Valid <==>
      && c.userId != ""
      && c.expires != ZERO_TIME && now < c.expires
      && c.notBefore != ZERO_TIME && c.notBefore <= now
      && c.issuedAt != ZERO_TIME && c.issuedAt <= now
      && (c.authorizedParty == "" || (c.issuer != "" && c.issuer == c.authorizedParty))
    ensures c.userId == "" <==> Validate(c, now) == ErrMissingSub
    ensures c.userId != "" && (c.expires == ZERO_TIME || c.expires <= now) <==> Validate(c, now) == ErrExpiration
    ensures Validate(c, now) == ErrInvalidParty ==> c.authorizedParty != "" && c.authorizedParty != c.issuer
    ensures Validate(c, now) == ErrTooEarly ==> c.notBefore == ZERO_TIME || now < c.notBefore
    ensures Validate(c, now) == ErrTooSoon ==> c.issuedAt == ZERO_TIME || now < c.issuedAt
  {
  }

  // ---- The window.

  lemma FloorBounds(t: Time)
    ensures Floor(t) <= t < Floor(t) + SECOND && Floor(t) % SECOND == 0
    ensures Floor(t - MAX_SKEW) == Floor(t) - MAX_SKEW
  {
    assert (t - MAX_SKEW) / SECOND == t / SECOND - 5;
  }

  /** None of the three times is the zero time, which would read as a missing claim. */
  predicate ClaimsPresent(c: Claims) {
    c.issuedAt != ZERO_TIME && c.notBefore != ZERO_TIME && c.expires != ZERO_TIME
  }

  /** The token is accepted at t exactly when floor(now) <= t < floor(now + lifetime). */
  lemma TokenWindowIff(c: Creator, now: Time, claims: Claims, t: Time)
    requires Issued(c, now, claims)
    ensures Validate(ReadBack(claims), t) == Valid <==>
      ClaimsPresent(ReadBack(claims)) && Floor(now) <= t < Floor(now + c.lifetime)
  {
    FloorBounds(now);
  }

  /** Nothing is missing from a token created after the epoch. */
  lemma ModernClaimsArePresent(c: Creator, now: Time, claims: Claims)
    requires Issued(c, now, claims) && now >= 0 && c.lifetime >= 0
    ensures ClaimsPresent(ReadBack(claims))
  {
    FloorBounds(now);
    FloorBounds(now + c.lifetime);
  }

  /** A lifetime of a second or more is honoured up to the last second, and never exceeded. */
  lemma TokenLifetime(c: Creator, now: Time, claims: Claims, t: Time)
    requires Issued(c, now, claims) && ClaimsPresent(ReadBack(claims)) && c.lifetime >= SECOND
    ensures now <= t <= now + c.lifetime - SECOND ==> Validate(ReadBack(claims), t) == Valid
    ensures now + c.lifetime <= t ==> Validate(ReadBack(claims), t) == ErrExpiration
  {
    FloorBounds(now);
    FloorBounds(now + c.lifetime);
    TokenWindowIff(c, now, claims, t);
  }

  /** A token can be used the moment it is created, whenever that is, exactly when it lives a second or more. */
  lemma UsableAtOnceIff(c: Creator)
    requires c.lifetime >= 5
    ensures (forall now, claims :: Issued(c, now, claims) && ClaimsPresent(ReadBack(claims)) ==>
        Validate(ReadBack(claims), now) == Valid)
      <==> c.lifetime >= SECOND
  {
    if c.lifetime >= SECOND {
      forall now, claims | Issued(c, now, claims) && ClaimsPresent(ReadBack(claims))
        ensures Validate(ReadBack(claims), now) == Valid
      {
        TokenLifetime(c, now, claims, now);
      }
    } else {
      var claims := Claims("", c.issuer, 0, -MAX_SKEW, c.lifetime, "", NIL_UUID, "", "", [], [], [], c.issuer);
      assert Issued(c, 0, claims);
      ModernClaimsArePresent(c, 0, claims);
      TokenWindowIff(c, 0, claims, 0);
      assert Floor(c.lifetime) == 0;
    }
  }
}
