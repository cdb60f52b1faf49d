/** The expiry and claim checks on a stored access token (the pure half of
    `TokenService`). The token is a JSON Web Token; `jwtDecode` reads its
    payload without checking the signature, and is a parameter here: a
    decoder that returns `None` where the library throws. */
module TokenClock {
  import opened Wrappers

  /** Seconds before expiry at which a token counts as "expiring soon". */
  const EXPIRY_WINDOW: real := 300.0

  /** The claims the client reads (section 4.1 of RFC 7519); a claim the
      payload lacks is `None`. `exp` is in seconds since the epoch. */
  datatype JwtPayload = JwtPayload(
    sub: Option<string>, email: Option<string>, role: Option<string>, exp: Option<real>)

  /** `jwtDecode`: the payload, or `None` where decoding throws. */
  type Decoder = string -> Option<JwtPayload>

  /** The token is stored and not the empty string (`if (!token)`). */
  predicate Present(token: Option<string>) {
    token.Some? && token.value != ""
  }

  /** `decodeToken`: null for a missing or empty token and for one that
      does not decode, the payload otherwise. */
  function DecodeToken(token: Option<string>, decode: Decoder): (r: Option<JwtPayload>)
    ensures !Present(token) ==> r.None?
    ensures r.Some? ==> Present(token) && decode(token.value) == r
    ensures Present(token) ==> r == decode(token.value)
  {
    if !Present(token) then None else decode(token.value)
  }

  /** The `exp` claim of a present token that decodes and carries one. */
  function Expiry(token: Option<string>, decode: Decoder): Option<real> {
    match DecodeToken(token, decode)
    case None => None
    case Some(p) => p.exp
  }

  /** `isTokenValid`: false without a token, false when decoding throws
      (or `exp` is missing, which compares false), else `exp > now`. */
  function IsTokenValid(token: Option<string>, decode: Decoder, now: real): (b: bool)
    ensures b <==> Expiry(token, decode).Some? && Expiry(token, decode).value > now
    ensures !Present(token) ==> !b
  {
    if !Present(token) then false
    else
      match decode(token.value)
      case None => false
      case Some(p) => p.exp.Some? && p.exp.value > now
  }

  /** `isTokenExpiringSoon`: false without a token or when decoding throws,
      else `exp - now < 300`. There is no lower bound, so a token that has
      already expired is also expiring soon. */
  function IsTokenExpiringSoon(token: Option<string>, decode: Decoder, now: real): (b: bool)
    ensures b <==> Expiry(token, decode).Some? && Expiry(token, decode).value - now < EXPIRY_WINDOW
    ensures Expiry(token, decode).Some? && !IsTokenValid(token, decode, now) ==> b
    ensures !Present(token) ==> !b
  {
    if !Present(token) then false
    else
      match decode(token.value)
      case None => false
      case Some(p) => p.exp.Some? && p.exp.value - now < EXPIRY_WINDOW
  }

  /** `payload?.claim || null`: a missing payload, a missing claim and an
      empty claim all give null. */
  function Claim(payload: Option<JwtPayload>, claim: JwtPayload -> Option<string>): (r: Option<string>)
    ensures r.Some? ==> r.value != "" && payload.Some? && claim(payload.value) == r
    ensures payload.Some? && claim(payload.value).Some? && claim(payload.value).value != "" ==> r == claim(payload.value)
  {
    if payload.Some? && claim(payload.value).Some? && claim(payload.value).value != ""
    then claim(payload.value) else None
  }

  /** `getUserId`: the non-empty `sub` claim of a decodable token. */
  function GetUserId(token: Option<string>, decode: Decoder): (r: Option<string>)
    ensures r.Some? ==> r.value != "" && DecodeToken(token, decode).Some? && DecodeToken(token, decode).value.sub == r
    ensures DecodeToken(token, decode).None? ==> r.None?
    ensures var p := DecodeToken(token, decode);
      p.Some? && p.value.sub.Some? && p.value.sub.value != "" ==> r == p.value.sub
  {
    Claim(DecodeToken(token, decode), (p: JwtPayload) => p.sub)
  }

  /** `getEmail`: the non-empty `email` claim of a decodable token. */
  function GetEmail(token: Option<string>, decode: Decoder): (r: Option<string>)
    ensures r.Some? ==> r.value != "" && DecodeToken(token, decode).Some? && DecodeToken(token, decode).value.email == r
    ensures DecodeToken(token, decode).None? ==> r.None?
    ensures var p := DecodeToken(token, decode);
      p.Some? && p.value.email.Some? && p.value.email.value != "" ==> r == p.value.email
  {
    Claim(DecodeToken(token, decode), (p: JwtPayload) => p.email)
  }

  /** `getRole`: the non-empty role claim of a decodable token. */
  function GetRole(token: Option<string>, decode: Decoder): (r: Option<string>)
    ensures r.Some? ==> r.value != "" && DecodeToken(token, decode).Some? && DecodeToken(token, decode).value.role == r
    ensures DecodeToken(token, decode).None? ==> r.None?
    ensures var p := DecodeToken(token, decode);
      p.Some? && p.value.role.Some? && p.value.role.value != "" ==> r == p.value.role
  {
    Claim(DecodeToken(token, decode), (p: JwtPayload) => p.role)
  }
}

/** `TokenService`: three `localStorage` slots for the access token, the
    refresh token and the expiry string. Outside the browser (server-side
    rendering) every getter returns null and every setter does nothing. */
module TokenStore {
  import opened Wrappers
  import opened Platform
  import TokenClock

  const ACCESS_TOKEN_KEY := "planify_access_token"
  const REFRESH_TOKEN_KEY := "planify_refresh_token"
  const EXPIRES_AT_KEY := "planify_expires_at"

  /** What a getter reads for `key`: the stored string in the browser, null elsewhere. */
  function Slot(items: map<string, string>, browser: bool, key: string): Option<string> {
    if browser && key in items then Some(items[key]) else None
  }

  /** Validity and imminent expiry are decided by the access-token slot
      alone: writing or removing any other slot changes neither. */
  lemma OnlyAccessTokenDecides(items: map<string, string>, browser: bool, key: string, value: string,
                               decode: TokenClock.Decoder, now: real)
    requires key != ACCESS_TOKEN_KEY
    ensures var before := Slot(items, browser, ACCESS_TOKEN_KEY);
      var written := Slot(items[key := value], browser, ACCESS_TOKEN_KEY);
      var removed := Slot(items - {key}, browser, ACCESS_TOKEN_KEY);
      && TokenClock.IsTokenValid(written, decode, now) == TokenClock.IsTokenValid(before, decode, now)
      && TokenClock.IsTokenValid(removed, decode, now) == TokenClock.IsTokenValid(before, decode, now)
      && TokenClock.IsTokenExpiringSoon(written, decode, now) == TokenClock.IsTokenExpiringSoon(before, decode, now)
      && TokenClock.IsTokenExpiringSoon(removed, decode, now) == TokenClock.IsTokenExpiringSoon(before, decode, now)
  {
  }

  class TokenService {
    const browser: bool
    const storage: LocalStorage

    constructor (browser: bool, storage: LocalStorage)
      ensures this.browser == browser && this.storage == storage
    {
      this.browser := browser;
      this.storage := storage;
    }

    /** `getAccessToken`: in the browser the stored string, if any; null elsewhere. */
    function GetAccessToken(): (r: Option<string>)
      reads this, storage
      ensures !browser ==> r.None?
      ensures browser ==> (r.Some? <==> ACCESS_TOKEN_KEY in storage.items)
      ensures r.Some? ==> r.value == storage.items[ACCESS_TOKEN_KEY]
    {
      Slot(storage.items, browser, ACCESS_TOKEN_KEY)
    }

    /** `getRefreshToken`: in the browser the stored string, if any; null elsewhere. */
    function GetRefreshToken(): (r: Option<string>)
      reads this, storage
      ensures !browser ==> r.None?
      ensures browser ==> (r.Some? <==> REFRESH_TOKEN_KEY in storage.items)
      ensures r.Some? ==> r.value == storage.items[REFRESH_TOKEN_KEY]
    {
      Slot(storage.items, browser, REFRESH_TOKEN_KEY)
    }

    /** `getExpiresAt`: in the browser the stored string, if any; null elsewhere. */
    function GetExpiresAt(): (r: Option<string>)
      reads this, storage
      ensures !browser ==> r.None?
      ensures browser ==> (r.Some? <==> EXPIRES_AT_KEY in storage.items)
      ensures r.Some? ==> r.value == storage.items[EXPIRES_AT_KEY]
    {
      Slot(storage.items, browser, EXPIRES_AT_KEY)
    }

    method SetAccessToken(token: string)
      modifies storage
      ensures storage.items == if browser then old(storage.items)[ACCESS_TOKEN_KEY := token] else old(storage.items)
      ensures GetAccessToken() == if browser then Some(token) else None
      ensures GetRefreshToken() == old(GetRefreshToken()) && GetExpiresAt() == old(GetExpiresAt())
    {
      if browser {
        storage.SetItem(ACCESS_TOKEN_KEY, token);
      }
    }

    method SetRefreshToken(token: string)
      modifies storage
      ensures storage.items == if browser then old(storage.items)[REFRESH_TOKEN_KEY := token] else old(storage.items)
      ensures GetRefreshToken() == if browser then Some(token) else None
      ensures GetAccessToken() == old(GetAccessToken()) && GetExpiresAt() == old(GetExpiresAt())
    {
      if browser {
        storage.SetItem(REFRESH_TOKEN_KEY, token);
      }
    }

    method SetExpiresAt(expiresAt: string)
      modifies storage
      ensures storage.items == if browser then old(storage.items)[EXPIRES_AT_KEY := expiresAt] else old(storage.items)
      ensures GetExpiresAt() == if browser then Some(expiresAt) else None
      ensures GetAccessToken() == old(GetAccessToken()) && GetRefreshToken() == old(GetRefreshToken())
    {
      if browser {
        storage.SetItem(EXPIRES_AT_KEY, expiresAt);
      }
    }

    /** Removes the three slots and nothing else. */
    method ClearTokens()
      modifies storage
      ensures storage.items == if browser then old(storage.items) - {ACCESS_TOKEN_KEY, REFRESH_TOKEN_KEY, EXPIRES_AT_KEY}
                               else old(storage.items)
      ensures GetAccessToken().None? && GetRefreshToken().None? && GetExpiresAt().None?
    {
      if browser {
        storage.RemoveItem(ACCESS_TOKEN_KEY);
        storage.RemoveItem(REFRESH_TOKEN_KEY);
        storage.RemoveItem(EXPIRES_AT_KEY);
      }
    }

    /** `isTokenValid` on the stored access token. */
    function IsTokenValid(decode: TokenClock.Decoder, now: real): (b: bool)
      reads this, storage
      ensures b ==> browser && ACCESS_TOKEN_KEY in storage.items
      ensures b <==> TokenClock.Expiry(GetAccessToken(), decode).Some? && TokenClock.Expiry(GetAccessToken(), decode).value > now
    {
      TokenClock.IsTokenValid(GetAccessToken(), decode, now)
    }

    /** `isTokenExpiringSoon` on the stored access token. */
    function IsTokenExpiringSoon(decode: TokenClock.Decoder, now: real): (b: bool)
      reads this, storage
      ensures b ==> browser && ACCESS_TOKEN_KEY in storage.items
      ensures b <==> TokenClock.Expiry(GetAccessToken(), decode).Some?
                     && TokenClock.Expiry(GetAccessToken(), decode).value - now < TokenClock.EXPIRY_WINDOW
    {
      TokenClock.IsTokenExpiringSoon(GetAccessToken(), decode, now)
    }
  }
}
