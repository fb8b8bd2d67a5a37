/**
 * The OAuth 2.0 credential lifecycle of the Strava importer: the one-time
 * authorization-code exchange of the setup dialog (section 4.1 of RFC 6749)
 * and the refresh-token grant (section 6 of RFC 6749) that keeps the access
 * token valid. The credential store is the script's string-keyed property
 * store; the token endpoint is a function from the request sent to the
 * response received, so that a call that sends no request can say so.
 */
module TokenManager {
  import opened Wrappers
  import opened Text

  const CLIENT_ID := "STRAVA_CLIENT_ID"
  const CLIENT_SECRET := "STRAVA_CLIENT_SECRET"
  const ACCESS_TOKEN := "STRAVA_ACCESS_TOKEN"
  const REFRESH_TOKEN := "STRAVA_REFRESH_TOKEN"
  const EXPIRES_AT := "STRAVA_EXPIRES_AT"

  /** A cached token is reused only while it outlives `now` by more than this many seconds. */
  const SAFETY_MARGIN := 300

  const SETUP_DONE := "Setup klar! Du kan nu importera aktiviteter."

  /** The form-encoded POST sent to the token endpoint. */
  datatype TokenRequest =
    | RefreshGrant(clientId: string, clientSecret: string, refreshToken: string)
    | AuthorizationCodeGrant(clientId: string, clientSecret: string, code: string)

  /** The endpoint's answer: status, body text and the fields parsed from a 200 body. */
  datatype TokenResponse = TokenResponse(
    status: int, body: string, accessToken: string, refreshToken: string, expiresAt: int)

  datatype TokenError =
    | MissingCredentials          // some of client id, secret, refresh token is absent or empty
    | RefreshRejected(body: string)
    | ExchangeRejected(body: string)

  /** `getProperty`: an absent key reads as null, which every use treats like "". */
  function Get(props: map<string, string>, key: string): string {
    if key in props then props[key] else ""
  }

  /** Client id, client secret and refresh token are all present and non-empty. */
  predicate HasCredentials(props: map<string, string>) {
    Get(props, CLIENT_ID) != "" && Get(props, CLIENT_SECRET) != "" && Get(props, REFRESH_TOKEN) != ""
  }

  /** The cached access token may be returned: it is set and `parseInt(expiresAt) > now + 300`. */
  predicate CachedTokenUsable(props: map<string, string>, now: int): (b: bool)
    ensures b <==> Get(props, ACCESS_TOKEN) != "" && ParseInt(Get(props, EXPIRES_AT)).Some?
                   && ParseInt(Get(props, EXPIRES_AT)).value > now + SAFETY_MARGIN
    ensures AllSpace(Get(props, EXPIRES_AT)) ==> !b
  {
    && Get(props, ACCESS_TOKEN) != ""
    && Get(props, EXPIRES_AT) != ""
    && match ParseInt(Get(props, EXPIRES_AT))
       case Some(expiresAt) => expiresAt > now + SAFETY_MARGIN
       case None => false
  }

  lemma PropertyNamesDistinct()
    ensures CLIENT_ID != CLIENT_SECRET && CLIENT_ID != ACCESS_TOKEN && CLIENT_ID != REFRESH_TOKEN
    ensures CLIENT_ID != EXPIRES_AT && CLIENT_SECRET != ACCESS_TOKEN && CLIENT_SECRET != REFRESH_TOKEN
    ensures CLIENT_SECRET != EXPIRES_AT && ACCESS_TOKEN != REFRESH_TOKEN && ACCESS_TOKEN != EXPIRES_AT
    ensures REFRESH_TOKEN != EXPIRES_AT
  {
    assert CLIENT_ID[14] == 'I' && CLIENT_SECRET[14] == 'S';
    assert CLIENT_ID[7] == 'C' && CLIENT_SECRET[7] == 'C';
    assert ACCESS_TOKEN[7] == 'A' && REFRESH_TOKEN[7] == 'R' && EXPIRES_AT[7] == 'E';
  }

  /** The write pattern shared by setup and refresh: the three token fields from a 200 response. */
  function StoreTokens(props: map<string, string>, resp: TokenResponse): (p: map<string, string>)
    ensures Get(p, ACCESS_TOKEN) == resp.accessToken
    ensures Get(p, REFRESH_TOKEN) == resp.refreshToken
    ensures Get(p, EXPIRES_AT) == IntToString(resp.expiresAt)
    ensures p.Keys == props.Keys + {ACCESS_TOKEN, REFRESH_TOKEN, EXPIRES_AT}
    ensures forall k :: k != ACCESS_TOKEN && k != REFRESH_TOKEN && k != EXPIRES_AT ==> Get(p, k) == Get(props, k)
  {
    PropertyNamesDistinct();
    props[ACCESS_TOKEN := resp.accessToken][REFRESH_TOKEN := resp.refreshToken][EXPIRES_AT := IntToString(resp.expiresAt)]
  }

  /** The stored `String(expires_at)` parses back to the response's expiry. */
  lemma StoredExpiryReadsBack(props: map<string, string>, resp: TokenResponse)
    ensures ParseInt(Get(StoreTokens(props, resp), EXPIRES_AT)) == Some(resp.expiresAt)
  {
    IntToStringRoundTrip(resp.expiresAt);
  }

  /** The property store of the script, the single owner of the credential set. */
  class CredentialStore {
    var props: map<string, string>

    constructor (initial: map<string, string>)
      ensures props == initial
    {
      props := initial;
    }

    /**
     * `getValidAccessToken_`: fails before any request when a credential is
     * missing, returns the cached token while it is fresh, and otherwise
     * refreshes, persisting whatever the response returns.
     */
    method GetValidAccessToken(now: int, server: TokenRequest -> TokenResponse)
      returns (r: Result<string, TokenError>, sent: Option<TokenRequest>)
      modifies this
      ensures !HasCredentials(old(props)) ==>
        r == Failure(MissingCredentials) && sent == None && props == old(props)
      ensures HasCredentials(old(props)) && CachedTokenUsable(old(props), now) ==>
        r == Success(Get(old(props), ACCESS_TOKEN)) && sent == None && props == old(props)
      ensures HasCredentials(old(props)) && !CachedTokenUsable(old(props), now) ==>
        && sent == Some(RefreshGrant(Get(old(props), CLIENT_ID), Get(old(props), CLIENT_SECRET),
                                     Get(old(props), REFRESH_TOKEN)))
        && var resp := server(sent.value);
           if resp.status != 200 then r == Failure(RefreshRejected(resp.body)) && props == old(props)
           else r == Success(resp.accessToken) && props == StoreTokens(old(props), resp)
    {
      var clientId := Get(props, CLIENT_ID);
      var clientSecret := Get(props, CLIENT_SECRET);
      var refreshToken := Get(props, REFRESH_TOKEN);
      var accessToken := Get(props, ACCESS_TOKEN);
      if clientId == "" || clientSecret == "" || refreshToken == "" {
        return Failure(MissingCredentials), None;
      }
      if CachedTokenUsable(props, now) {
        return Success(accessToken), None;
      }
      var request := RefreshGrant(clientId, clientSecret, refreshToken);
      sent := Some(request);
      var resp := server(request);
      if resp.status != 200 {
        r := Failure(RefreshRejected(resp.body));
        return;
      }
      props := StoreTokens(props, resp);
      r := Success(resp.accessToken);
    }

    /**
     * `setupStravaFromDialog`: stores the trimmed client id and secret first
     * (they stay even when the exchange fails), then exchanges the
     * authorization code and stores the tokens of a 200 response.
     */
    method SetupFromDialog(clientId: string, clientSecret: string, authCode: string,
                           server: TokenRequest -> TokenResponse)
      returns (r: Result<string, TokenError>, sent: TokenRequest)
      modifies this
      ensures sent == AuthorizationCodeGrant(Trim(clientId), Trim(clientSecret), Trim(authCode))
      ensures var withClient := old(props)[CLIENT_ID := Trim(clientId)][CLIENT_SECRET := Trim(clientSecret)];
        var resp := server(sent);
        if resp.status != 200 then r == Failure(ExchangeRejected(resp.body)) && props == withClient
        else r == Success(SETUP_DONE) && props == StoreTokens(withClient, resp)
    {
      props := props[CLIENT_ID := Trim(clientId)];
      props := props[CLIENT_SECRET := Trim(clientSecret)];
      sent := AuthorizationCodeGrant(Trim(clientId), Trim(clientSecret), Trim(authCode));
      var resp := server(sent);
      if resp.status != 200 {
        r := Failure(ExchangeRejected(resp.body));
        return;
      }
      props := StoreTokens(props, resp);
      r := Success(SETUP_DONE);
    }
  }

  /**
   * A refresh whose response carries a token that expires later than
   * `now + 300` leaves a store whose next call at the same `now` takes the
   * cached path, and which stays usable for as long as the response's refresh
   * token is non-empty.
   */
  lemma RefreshedTokenIsReused(props: map<string, string>, resp: TokenResponse, now: int)
    requires resp.accessToken != "" && resp.expiresAt > now + SAFETY_MARGIN
    ensures CachedTokenUsable(StoreTokens(props, resp), now)
    ensures HasCredentials(StoreTokens(props, resp)) <==>
      Get(props, CLIENT_ID) != "" && Get(props, CLIENT_SECRET) != "" && resp.refreshToken != ""
  {
    PropertyNamesDistinct();
    StoredExpiryReadsBack(props, resp);
  }

  /** The margin is strict: a token stored as expiring exactly at `now + 300` is refreshed. */
  lemma ExpiryAtMarginRefreshes(props: map<string, string>, now: int)
    requires Get(props, EXPIRES_AT) == IntToString(now + SAFETY_MARGIN)
    ensures !CachedTokenUsable(props, now)
  {
    IntToStringRoundTrip(now + SAFETY_MARGIN);
  }

  /** A successful setup with a non-blank client id, secret and refresh token enables the token path. */
  lemma SetupEnablesRefresh(props: map<string, string>, clientId: string, clientSecret: string,
                            resp: TokenResponse)
    requires Trim(clientId) != "" && Trim(clientSecret) != "" && resp.refreshToken != ""
    ensures HasCredentials(StoreTokens(props[CLIENT_ID := Trim(clientId)][CLIENT_SECRET := Trim(clientSecret)], resp))
  {
    PropertyNamesDistinct();
    var w := props[CLIENT_ID := Trim(clientId)][CLIENT_SECRET := Trim(clientSecret)];
    assert Get(w, CLIENT_ID) == Trim(clientId) && Get(w, CLIENT_SECRET) == Trim(clientSecret);
  }
}
