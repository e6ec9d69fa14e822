/**
 * Signed player credentials: issued, verified when refreshed, and accepted by the client. The keyed hash is
 * any function of key and text to 32 bytes; random identifiers and nonces are arguments.
 */
module SessionCredentials {
  import opened Basics
  import opened Texts
  import opened Base64Url
  import opened SessionIdentifiers

  const IDENTITY_VERSION := "vxi1"
  const SESSION_VERSION := "vxs1"
  const IDENTITY_LIFETIME: int := 366 * 24 * 60 * 60
  const SESSION_LIFETIME: int := 12 * 60 * 60
  const REFRESH_AHEAD: int := 5 * 60
  const MAX_FUTURE: int := 13 * 60 * 60

  type Mac = b: Bytes | |b| == 32 witness seq(32, _ => 0)

  type Keyed = (string, string) -> Mac

  type Nonce = b: Bytes | |b| == 12 witness seq(12, _ => 0)

  type Uuid = s: string | IsNonNilUuid(s) witness "00000000-0000-0000-0000-000000000001"

  datatype Claims = Claims(browserUserId: string, playerId: string, playerName: string)

  datatype Credentials = Credentials(claims: Claims, sessionToken: string, identityCredential: string, expiresAt: int)

  datatype Failure = ShortKeys | InvalidUuid | TokenTooLong

  datatype Issue = Issued(credentials: Credentials) | Denied | Failed(failure: Failure)

  predicate IsNameStart(c: char) {
    'a' <= c <= 'z' || '0' <= c <= '9'
  }

  predicate IsPlayerName(s: string) {
    && 1 <= |s| <= 32
    && IsNameStart(s[0])
    && forall i | 0 <= i < |s| :: IsNameStart(s[i]) || s[i] == '_' || s[i] == '-'
  }

  /** Lower-case letters and digits, with underscores and hyphens after the first, at most 32 of them. */
  lemma NamesByExample()
    ensures IsPlayerName("a") && IsPlayerName("0-player_9") && IsPlayerName("abcdefghijklmnopqrstuvwxyz012345")
    ensures !IsPlayerName("") && !IsPlayerName("-a") && !IsPlayerName("_a")
    ensures !IsPlayerName("Alice") && !IsPlayerName("a b")
    ensures !IsPlayerName("abcdefghijklmnopqrstuvwxyz0123456")
  {
    assert "-a"[0] == '-' && "_a"[0] == '_' && "Alice"[0] == 'A' && "a b"[1] == ' ';
  }

  type PlayerName = s: string | IsPlayerName(s) witness "a"

  // --------------------------------------------------------------------- the name

  function NameBytes(s: PlayerName): Bytes {
    NameIsAscii(s);
    seq(|s|, i requires 0 <= i < |s| => s[i] as int)
  }

  lemma NameIsAscii(s: PlayerName)
    ensures 1 <= |s| <= 32 && forall i | 0 <= i < |s| :: s[i] as int < 128
  {}

  /**
   * The decoded text, a leading byte order mark dropped. None stands for an error, or for a text outside
   * ASCII, which is no player name either.
   */
  function DecodedText(bytes: Bytes): Option<string> {
    var b := if |bytes| >= 3 && bytes[..3] == [0xef, 0xbb, 0xbf] then bytes[3..] else bytes;
    if exists i | 0 <= i < |b| :: b[i] >= 128 then None
    else Some(seq(|b|, i requires 0 <= i < |b| => b[i] as char))
  }

  function Base64UrlToText(value: string): Option<string> {
    match Decode(value)
    case None => None
    case Some(bytes) => DecodedText(bytes)
  }

  lemma NameRoundTrip(name: PlayerName)
    ensures Base64UrlToText(Encode(NameBytes(name))) == Some(name)
    ensures |Encode(NameBytes(name))| <= 43
  {
    NameIsAscii(name);
    var bytes := NameBytes(name);
    DecodeUndoesEncode(bytes);
    EncodeShape(bytes);
    hide Encode, Decode, IsPlayerName;
    assert |bytes| >= 3 ==> bytes[..3][0] == bytes[0] < 128 && [0xef, 0xbb, 0xbf][0] >= 128;
    assert forall i | 0 <= i < |bytes| :: bytes[i] < 128;
    assert DecodedText(bytes).value == name;
  }

  // --------------------------------------------------------------------- signing

  function Sign(mac: Keyed, key: string, payload: string): string {
    Encode(mac(key, payload))
  }

  predicate Verify(mac: Keyed, key: string, payload: string, signature: string) {
    Decode(signature) == Some(mac(key, payload))
  }

  /** Verification accepts what signing made, and of canonical texts nothing else. */
  lemma VerifyAcceptsSigned(mac: Keyed, key: string, payload: string, signature: string)
    ensures Verify(mac, key, payload, Sign(mac, key, payload))
    ensures
      AllDigits(signature) && |signature| % 4 != 1 && Canonical(signature) ==>
        (Verify(mac, key, payload, signature) <==> signature == Sign(mac, key, payload))
    ensures AllDigits(Sign(mac, key, payload)) && |Sign(mac, key, payload)| == 43
  {
    DecodeUndoesEncode(mac(key, payload));
    EncodeShape(mac(key, payload));
    if AllDigits(signature) && |signature| % 4 != 1 && Canonical(signature) {
      EncodeUndoesDecode(signature);
    }
    hide Encode, DecodeGroups, Canonical, IsDigit;
  }

  /** The five parts of an identity credential that are signed. */
  function IdentityParts(expiresAt: int, browser: string, player: string, name: PlayerName): seq<string> {
    [IDENTITY_VERSION, Print(expiresAt), browser, player, Encode(NameBytes(name))]
  }

  function VerifyIdentity(mac: Keyed, key: string, credential: string, requested: string, now: int): Option<Claims> {
    var parts := Split(credential);
    if |parts| != 6 || parts[0] != IDENTITY_VERSION then None
    else
      var expiry := Parse(parts[1]);
      if expiry == None || !IsSafe(expiry.value) || expiry.value <= now then None
      else if !Verify(mac, key, Join(parts[..5]), parts[5]) then None
      else
        var browser, player := Base64UrlToUuid(parts[2]), Base64UrlToUuid(parts[3]);
        var name := Base64UrlToText(parts[4]);
        if browser == None || player == None || name == None then None
        else if name.value != requested || !IsPlayerName(name.value) then None
        else Some(Claims(browser.value, player.value, name.value))
  }

  function IdentityCredential(mac: Keyed, key: string, parts: seq<string>): string {
    Join(parts) + "." + Sign(mac, key, Join(parts))
  }

  function SessionToken(
      mac: Keyed, key: string, expiresAt: int, browser: string, player: string, nonce: Nonce): string {
    var payload := Join([SESSION_VERSION, Print(expiresAt), browser, player, Encode(nonce)]);
    payload + "." + Sign(mac, key, payload)
  }

  function IssueFor(mac: Keyed, sessionKey: string, identityKey: string, claims: Claims, now: int, nonce: Nonce): Issue {
    var browser, player := UuidToBase64Url(claims.browserUserId), UuidToBase64Url(claims.playerId);
    if browser == None || player == None || !IsPlayerName(claims.playerName) then Failed(InvalidUuid)
    else
      var parts := IdentityParts(now + IDENTITY_LIFETIME, browser.value, player.value, claims.playerName);
      var expiresAt := now + SESSION_LIFETIME;
      var token := SessionToken(mac, sessionKey, expiresAt, browser.value, player.value, nonce);
      if |token| > 128 then Failed(TokenTooLong)
      else Issued(Credentials(claims, token, IdentityCredential(mac, identityKey, parts), expiresAt))
  }

  function IssueSession(
      mac: Keyed, sessionKey: string, identityKey: string, name: string, credential: Option<string>, now: int,
      freshBrowser: Uuid, freshPlayer: Uuid, nonce: Nonce): Issue
  {
    if !IsPlayerName(name) then Denied
    else if |sessionKey| < 32 || |identityKey| < 32 then Failed(ShortKeys)
    else
      var claims :=
        if credential.Some? then VerifyIdentity(mac, identityKey, credential.value, name, now)
        else Some(Claims(freshBrowser, freshPlayer, name));
      if claims == None then Denied else IssueFor(mac, sessionKey, identityKey, claims.value, now, nonce)
  }

  // ----------------------------------------------------------------- the round trip

  ghost predicate Wellformed(c: Claims) {
    IsNonNilUuid(c.browserUserId) && IsNonNilUuid(c.playerId) && IsPlayerName(c.playerName)
  }

  lemma DigitsAreDotless(s: string)
    requires AllDigits(s)
    ensures Dotless(s)
  {}

  /** The parts of a credential, and what each of them says. */
  lemma CredentialParts(mac: Keyed, key: string, claims: Claims, expiresAt: int)
    requires Wellformed(claims)
    ensures
      var browser, player := UuidToBase64Url(claims.browserUserId), UuidToBase64Url(claims.playerId);
      && browser.Some? && player.Some?
      && Base64UrlToUuid(browser.value) == Some(claims.browserUserId)
      && Base64UrlToUuid(player.value) == Some(claims.playerId)
      && |browser.value| == 22 && |player.value| == 22
      && AllDigits(browser.value) && AllDigits(player.value)
  {
    UuidRoundTrip(claims.browserUserId);
    UuidRoundTrip(claims.playerId);
    ConversionRoundTrip(claims.browserUserId);
    ConversionRoundTrip(claims.playerId);
  }

  lemma SplitCredential(parts: seq<string>, signature: string)
    requires |parts| == 5 && (forall p | p in parts :: Dotless(p)) && Dotless(signature)
    ensures Split(Join(parts) + "." + signature) == parts + [signature]
    ensures (parts + [signature])[..5] == parts
  {
    hide Join, Split, Dotless;
    JoinAppend(parts, signature);
    SplitUndoesJoin(parts + [signature]);
  }

  /**
   * Verifying an issued credential: under the same name and before its expiry it gives back the claims it was
   * issued for, and otherwise nothing.
   */
  lemma VerifyUndoesIssue(
      mac: Keyed, key: string, claims: Claims, expiresAt: int, requested: string, now: int)
    requires Wellformed(claims) && IsSafe(expiresAt)
    ensures UuidToBase64Url(claims.browserUserId).Some? && UuidToBase64Url(claims.playerId).Some?
    ensures
      var parts := IdentityParts(
        expiresAt, UuidToBase64Url(claims.browserUserId).value, UuidToBase64Url(claims.playerId).value,
        claims.playerName);
      VerifyIdentity(mac, key, IdentityCredential(mac, key, parts), requested, now)
      == if requested == claims.playerName && now < expiresAt then Some(claims) else None
  {
    CredentialParts(mac, key, claims, expiresAt);
    var browser, player := UuidToBase64Url(claims.browserUserId).value, UuidToBase64Url(claims.playerId).value;
    var parts := IdentityParts(expiresAt, browser, player, claims.playerName);
    PartsAreDotless(expiresAt, browser, player, claims.playerName);
    ParseUndoesPrint(expiresAt);
    NameRoundTrip(claims.playerName);
    VerifyAcceptsSigned(mac, key, Join(parts), "");
    hide Join, Split, Print, Parse, Encode, NameBytes, Base64UrlToUuid, Base64UrlToText, UuidToBase64Url, Verify, Sign,
      IsNonNilUuid, IsPlayerName, IsDigit, Canonical;
    DigitsAreDotless(Sign(mac, key, Join(parts)));
    SplitCredential(parts, Sign(mac, key, Join(parts)));
  }

  lemma PartsAreDotless(expiresAt: int, browser: string, player: string, name: PlayerName)
    requires AllDigits(browser) && AllDigits(player)
    ensures forall p | p in IdentityParts(expiresAt, browser, player, name) :: Dotless(p)
  {
    ParseUndoesPrint(expiresAt);
    EncodeShape(NameBytes(name));
    DigitsAreDotless(Encode(NameBytes(name)));
    DigitsAreDotless(browser);
    DigitsAreDotless(player);
    hide Print, Encode, NameBytes, IsDigit;
  }

  // ------------------------------------------------------------------- issuing

  lemma TokenLength(mac: Keyed, key: string, expiresAt: int, browser: string, player: string, nonce: Nonce)
    requires IsSafe(expiresAt) && |browser| == 22 && |player| == 22
    ensures |SessionToken(mac, key, expiresAt, browser, player, nonce)| == 112 + |Print(expiresAt)|
    ensures
      var length := |SessionToken(mac, key, expiresAt, browser, player, nonce)|;
      length <= 124 && (length == 124 <==> expiresAt <= -ELEVEN_DIGITS)
  {
    var parts := [SESSION_VERSION, Print(expiresAt), browser, player, Encode(nonce)];
    EncodeShape(nonce);
    VerifyAcceptsSigned(mac, key, Join(parts), "");
    PrintLength(expiresAt);
    hide Encode, Sign, Print;
    FiveParts(SESSION_VERSION, Print(expiresAt), browser, player, Encode(nonce));
  }

  /** The largest token there is: 124 characters, for the earliest expiry that still is a safe integer. */
  lemma LongestToken(mac: Keyed, key: string, browser: Uuid, player: Uuid, nonce: Nonce)
    ensures UuidToBase64Url(browser).Some? && UuidToBase64Url(player).Some?
    ensures
      |SessionToken(
        mac, key, -MAX_SAFE_INTEGER, UuidToBase64Url(browser).value, UuidToBase64Url(player).value, nonce)| == 124
  {
    UuidRoundTrip(browser);
    UuidRoundTrip(player);
    ConversionRoundTrip(browser);
    ConversionRoundTrip(player);
    hide SessionToken, UuidToBase64Url, IsNonNilUuid;
    TokenLength(
      mac, key, -MAX_SAFE_INTEGER, UuidToBase64Url(browser).value, UuidToBase64Url(player).value, nonce);
  }

  lemma FiveParts(a: string, b: string, c: string, d: string, e: string)
    ensures Join([a, b, c, d, e]) == a + "." + (b + "." + (c + "." + (d + "." + e)))
  {
    JoinHead(a, [b, c, d, e]);
    JoinHead(b, [c, d, e]);
    JoinHead(c, [d, e]);
    JoinHead(d, [e]);
    assert [a] + [b, c, d, e] == [a, b, c, d, e] && [b] + [c, d, e] == [b, c, d, e];
    assert [c] + [d, e] == [c, d, e] && [d] + [e] == [d, e];
  }

  ghost predicate SafeTimes(now: int) {
    IsSafe(now + SESSION_LIFETIME) && IsSafe(now + IDENTITY_LIFETIME)
  }

  /** For well-formed claims the length limit never fires, and the lengths the client checks are kept. */
  lemma IssueForSucceeds(
      mac: Keyed, sessionKey: string, identityKey: string, claims: Claims, now: int, nonce: Nonce)
    requires Wellformed(claims) && SafeTimes(now)
    ensures
      var r := IssueFor(mac, sessionKey, identityKey, claims, now, nonce);
      && r.Issued? && r.credentials.claims == claims && r.credentials.expiresAt == now + SESSION_LIFETIME
      && |r.credentials.sessionToken| <= (if now + SESSION_LIFETIME <= -ELEVEN_DIGITS then 124 else 123)
  {
    CredentialParts(mac, identityKey, claims, now);
    hide SessionToken, IdentityCredential, UuidToBase64Url, IsNonNilUuid, IsPlayerName;
    TokenLength(
      mac, sessionKey, now + SESSION_LIFETIME, UuidToBase64Url(claims.browserUserId).value,
      UuidToBase64Url(claims.playerId).value, nonce);
  }

  /**
   * A session token read as the server reads it: version, expiry, both identifiers, nonce, and a signature of
   * those five parts under the session key.
   */
  ghost predicate SaysOf(
    token: string, mac: Keyed, key: string, expiresAt: int, browser: string, player: string, nonce: Nonce)
  {
    var parts := Split(token);
    && |parts| == 6 && parts[0] == "vxs1"
    && Parse(parts[1]) == Some(expiresAt)
    && Base64UrlToUuid(parts[2]) == Some(browser)
    && Base64UrlToUuid(parts[3]) == Some(player)
    && Decode(parts[4]) == Some(nonce)
    && Verify(mac, key, Join(parts[..5]), parts[5])
  }

  lemma TokenReadsBack(mac: Keyed, key: string, expiresAt: int, browser: Uuid, player: Uuid, nonce: Nonce)
    ensures UuidToBase64Url(browser).Some? && UuidToBase64Url(player).Some?
    ensures
      SaysOf(
        SessionToken(
          mac, key, expiresAt, UuidToBase64Url(browser).value, UuidToBase64Url(player).value, nonce),
        mac, key, expiresAt, browser, player, nonce)
  {
    UuidRoundTrip(browser);
    UuidRoundTrip(player);
    ConversionRoundTrip(browser);
    ConversionRoundTrip(player);
    var b, p := UuidToBase64Url(browser).value, UuidToBase64Url(player).value;
    var parts := [SESSION_VERSION, Print(expiresAt), b, p, Encode(nonce)];
    ParseUndoesPrint(expiresAt);
    DecodeUndoesEncode(nonce);
    VerifyAcceptsSigned(mac, key, Join(parts), "");
    TokenSplits(mac, key, expiresAt, b, p, nonce);
    hide Join, Split, Print, Parse, Encode, Decode, Base64UrlToUuid, UuidToBase64Url, Verify, Sign, IsNonNilUuid,
      AllDigits, SessionToken, Canonical;
  }

  lemma TokenSplits(mac: Keyed, key: string, expiresAt: int, b: string, p: string, nonce: Nonce)
    requires AllDigits(b) && AllDigits(p)
    ensures
      var parts := [SESSION_VERSION, Print(expiresAt), b, p, Encode(nonce)];
      && Split(SessionToken(mac, key, expiresAt, b, p, nonce)) == parts + [Sign(mac, key, Join(parts))]
      && (parts + [Sign(mac, key, Join(parts))])[..5] == parts
  {
    var parts := [SESSION_VERSION, Print(expiresAt), b, p, Encode(nonce)];
    ParseUndoesPrint(expiresAt);
    EncodeShape(nonce);
    VerifyAcceptsSigned(mac, key, Join(parts), "");
    DigitsAreDotless(b);
    DigitsAreDotless(p);
    DigitsAreDotless(Encode(nonce));
    DigitsAreDotless(Sign(mac, key, Join(parts)));
    hide Join, Split, Print, Parse, Encode, Verify, Sign, AllDigits;
    SplitCredential(parts, Sign(mac, key, Join(parts)));
  }

  /** Every issued token says what the response says. */
  lemma IssuedTokenSays(
      mac: Keyed, sessionKey: string, identityKey: string, claims: Claims, now: int, nonce: Nonce)
    requires Wellformed(claims) && SafeTimes(now)
    ensures IssueFor(mac, sessionKey, identityKey, claims, now, nonce).Issued?
    ensures
      var c := IssueFor(mac, sessionKey, identityKey, claims, now, nonce).credentials;
      && c.expiresAt == now + 43200 && c.claims == claims
      && SaysOf(
           c.sessionToken, mac, sessionKey, c.expiresAt, claims.browserUserId, claims.playerId, nonce)
  {
    IssueForSucceeds(mac, sessionKey, identityKey, claims, now, nonce);
    TokenReadsBack(mac, sessionKey, now + SESSION_LIFETIME, claims.browserUserId, claims.playerId, nonce);
    hide SessionToken, SaysOf, IdentityCredential, UuidToBase64Url, IsNonNilUuid, IsPlayerName;
  }

  /** What a refresh of issued credentials gives: the same identity before expiry under the name, else nothing. */
  lemma RefreshKeepsIdentity(
      mac: Keyed, oldSessionKey: string, sessionKey: string, identityKey: string, claims: Claims, issuedAt: int,
      oldNonce: Nonce, name: string, now: int, freshBrowser: Uuid, freshPlayer: Uuid, nonce: Nonce)
    requires Wellformed(claims) && SafeTimes(issuedAt) && SafeTimes(now)
    requires |sessionKey| >= 32 && |identityKey| >= 32
    ensures IssueFor(mac, oldSessionKey, identityKey, claims, issuedAt, oldNonce).Issued?
    ensures
      var first := IssueFor(mac, oldSessionKey, identityKey, claims, issuedAt, oldNonce).credentials;
      IssueSession(
        mac, sessionKey, identityKey, name, Some(first.identityCredential), now, freshBrowser, freshPlayer, nonce)
      == if name == claims.playerName && now < issuedAt + 31622400 then
           IssueFor(mac, sessionKey, identityKey, claims, now, nonce)
         else Denied
  {
    IssueForSucceeds(mac, oldSessionKey, identityKey, claims, issuedAt, oldNonce);
    VerifyUndoesIssue(mac, identityKey, claims, issuedAt + IDENTITY_LIFETIME, name, now);
    hide SessionToken, IdentityCredential, UuidToBase64Url, IsNonNilUuid, IsPlayerName, VerifyIdentity;
  }

  /** Without a credential a player gets the fresh identifiers, as the response and its token both say. */
  lemma NewPlayerIsFresh(
      mac: Keyed, sessionKey: string, identityKey: string, name: string, now: int, freshBrowser: Uuid,
      freshPlayer: Uuid, nonce: Nonce)
    requires IsPlayerName(name) && |sessionKey| >= 32 && |identityKey| >= 32 && SafeTimes(now)
    ensures
      var r := IssueSession(mac, sessionKey, identityKey, name, None, now, freshBrowser, freshPlayer, nonce);
      && r.Issued? && r.credentials.claims == Claims(freshBrowser, freshPlayer, name)
      && SaysOf(
           r.credentials.sessionToken, mac, sessionKey, now + 43200, freshBrowser, freshPlayer, nonce)
  {
    IssuedTokenSays(mac, sessionKey, identityKey, Claims(freshBrowser, freshPlayer, name), now, nonce);
    hide IssueFor, SaysOf, IsPlayerName;
  }

  /** One refresh: its session key, its time, and the identifiers it would use for a new player. */
  datatype Refresh = Refresh(sessionKey: string, now: int, browser: Uuid, player: Uuid, nonce: Nonce)

  /** Each refresh presents the credential the one before it returned. */
  function Chain(mac: Keyed, identityKey: string, name: string, last: Credentials, refreshes: seq<Refresh>): Issue
    decreases |refreshes|
  {
    if refreshes == [] then Issued(last)
    else
      var r := refreshes[0];
      match IssueSession(
        mac, r.sessionKey, identityKey, name, Some(last.identityCredential), r.now, r.browser, r.player, r.nonce)
      case Issued(next) => Chain(mac, identityKey, name, next, refreshes[1..])
      case other => other
  }

  /** Every refresh comes before the credential it presents expires. */
  ghost predicate Timely(issuedAt: int, refreshes: seq<Refresh>)
    decreases |refreshes|
  {
    refreshes != [] ==>
      && refreshes[0].now < issuedAt + IDENTITY_LIFETIME
      && SafeTimes(refreshes[0].now)
      && |refreshes[0].sessionKey| >= 32
      && Timely(refreshes[0].now, refreshes[1..])
  }

  /** Any chain of unexpired refreshes under one name keeps both identifiers, whatever the session keys. */
  lemma {:induction false} ChainKeepsIdentity(
      mac: Keyed, sessionKey: string, identityKey: string, claims: Claims, issuedAt: int, nonce: Nonce,
      refreshes: seq<Refresh>)
    requires Wellformed(claims) && SafeTimes(issuedAt) && |identityKey| >= 32
    requires Timely(issuedAt, refreshes)
    ensures IssueFor(mac, sessionKey, identityKey, claims, issuedAt, nonce).Issued?
    ensures
      var first := IssueFor(mac, sessionKey, identityKey, claims, issuedAt, nonce).credentials;
      var last := Chain(mac, identityKey, claims.playerName, first, refreshes);
      last.Issued? && last.credentials.claims == claims
    decreases |refreshes|
  {
    IssueForSucceeds(mac, sessionKey, identityKey, claims, issuedAt, nonce);
    if refreshes != [] {
      var r := refreshes[0];
      RefreshKeepsIdentity(
        mac, sessionKey, r.sessionKey, identityKey, claims, issuedAt, nonce, claims.playerName, r.now, r.browser,
        r.player, r.nonce);
      hide IssueFor, IssueSession, Wellformed, SafeTimes;
      ChainKeepsIdentity(mac, r.sessionKey, identityKey, claims, r.now, r.nonce, refreshes[1..]);
    }
  }

  // ------------------------------------------------------------------ the client

  predicate IsTokenChar(c: char) {
    'A' <= c <= 'Z' || 'a' <= c <= 'z' || '0' <= c <= '9' || c in "!#$%&'*+-.^_`|~"
  }

  predicate IsWebSocketToken(s: string) {
    s != "" && forall i | 0 <= i < |s| :: IsTokenChar(s[i])
  }

  /** The client's checks on a response that has every field. */
  predicate Accepts(c: Credentials, requested: string, now: int) {
    && c.sessionToken != "" && c.identityCredential != "" && c.claims.playerName != ""
    && IsWebSocketToken(c.sessionToken) && |c.sessionToken| <= 128
    && |c.identityCredential| <= 512
    && IsNonNilUuid(c.claims.browserUserId) && IsNonNilUuid(c.claims.playerId)
    && c.claims.playerName == requested
    && IsSafe(c.expiresAt)
    && now + REFRESH_AHEAD < c.expiresAt <= now + MAX_FUTURE
  }

  ghost predicate TokenChars(s: string) {
    forall i | 0 <= i < |s| :: IsTokenChar(s[i])
  }

  lemma TokenCharsAppend(a: string, b: string)
    ensures TokenChars(a + b) <==> TokenChars(a) && TokenChars(b)
  {
    hide IsTokenChar;
    assert forall i | 0 <= i < |a| :: (a + b)[i] == a[i];
    assert forall i | 0 <= i < |b| :: (a + b)[|a| + i] == b[i];
  }

  lemma DigitsAreTokenChars(s: string)
    requires AllDigits(s)
    ensures TokenChars(s)
  {}

  lemma PlainTokenChars()
    ensures TokenChars(".") && TokenChars("-") && TokenChars(SESSION_VERSION)
  {}

  lemma {:induction false} PrintedTokenChars(n: nat)
    ensures TokenChars(PrintNat(n))
  {
    if n >= 36 {
      PrintedTokenChars(n / 36);
    }
  }

  lemma NumberTokenChars(n: int)
    ensures TokenChars(Print(n))
  {
    PrintedTokenChars(if n < 0 then -n else n);
    PlainTokenChars();
    hide TokenChars, PrintNat;
    if n < 0 { TokenCharsAppend("-", PrintNat(-n)); }
  }

  lemma FivePartsTokenChars(a: string, b: string, c: string, d: string, e: string)
    requires TokenChars(a) && TokenChars(b) && TokenChars(c) && TokenChars(d) && TokenChars(e)
    ensures TokenChars(Join([a, b, c, d, e]))
  {
    FiveParts(a, b, c, d, e);
    PlainTokenChars();
    hide *;
    TokenCharsAppend(d + ".", e);
    TokenCharsAppend(d, ".");
    TokenCharsAppend(c + ".", d + "." + e);
    TokenCharsAppend(c, ".");
    TokenCharsAppend(b + ".", c + "." + (d + "." + e));
    TokenCharsAppend(b, ".");
    TokenCharsAppend(a + ".", b + "." + (c + "." + (d + "." + e)));
    TokenCharsAppend(a, ".");
  }

  lemma TokenIsWebSocketToken(
      mac: Keyed, key: string, expiresAt: int, browser: string, player: string, nonce: Nonce)
    requires AllDigits(browser) && AllDigits(player)
    ensures IsWebSocketToken(SessionToken(mac, key, expiresAt, browser, player, nonce))
  {
    var payload := Join([SESSION_VERSION, Print(expiresAt), browser, player, Encode(nonce)]);
    EncodeShape(nonce);
    VerifyAcceptsSigned(mac, key, payload, "");
    var signature := Sign(mac, key, payload);
    DigitsAreTokenChars(browser);
    DigitsAreTokenChars(player);
    DigitsAreTokenChars(Encode(nonce));
    DigitsAreTokenChars(signature);
    NumberTokenChars(expiresAt);
    PlainTokenChars();
    FivePartsTokenChars(SESSION_VERSION, Print(expiresAt), browser, player, Encode(nonce));
    assert SessionToken(mac, key, expiresAt, browser, player, nonce) == payload + "." + signature;
    hide Join, Sign, Encode, Print, SessionToken, IsTokenChar, AllDigits;
    TokenCharsAppend(payload + ".", signature);
    TokenCharsAppend(payload, ".");
  }

  lemma CredentialLength(mac: Keyed, key: string, expiresAt: int, browser: string, player: string, name: PlayerName)
    requires IsSafe(expiresAt) && |browser| == 22 && |player| == 22
    ensures 0 < |IdentityCredential(mac, key, IdentityParts(expiresAt, browser, player, name))| <= 151
  {
    var parts := IdentityParts(expiresAt, browser, player, name);
    NameRoundTrip(name);
    VerifyAcceptsSigned(mac, key, Join(parts), "");
    PrintLength(expiresAt);
    hide Encode, NameBytes, Sign, Print;
    FiveParts(IDENTITY_VERSION, Print(expiresAt), browser, player, Encode(NameBytes(name)));
  }

  /**
   * Only what was signed is verified: six parts of which the last is the keyed hash of the others, an expiry
   * still ahead, and the claims that the parts spell.
   */
  lemma VerifiedIsSigned(mac: Keyed, key: string, credential: string, requested: string, now: int)
    ensures
      var claims, parts := VerifyIdentity(mac, key, credential, requested, now), Split(credential);
      claims.Some? ==>
        && |parts| == 6 && parts[0] == "vxi1"
        && Decode(parts[5]) == Some(mac(key, Join(parts[..5])))
        && Parse(parts[1]).Some? && now < Parse(parts[1]).value <= MAX_SAFE_INTEGER
        && Base64UrlToUuid(parts[2]) == Some(claims.value.browserUserId)
        && Base64UrlToUuid(parts[3]) == Some(claims.value.playerId)
        && Base64UrlToText(parts[4]) == Some(claims.value.playerName) && claims.value.playerName == requested
  {
    hide Split, Parse, Join, Decode, Base64UrlToUuid, Base64UrlToText, IsPlayerName;
  }

  /** Verified claims are as well formed as fresh ones, whatever credential they came from. */
  lemma VerifiedIsWellformed(mac: Keyed, key: string, credential: string, requested: string, now: int)
    ensures
      var claims := VerifyIdentity(mac, key, credential, requested, now);
      claims.Some? ==> Wellformed(claims.value) && claims.value.playerName == requested
  {
    if VerifyIdentity(mac, key, credential, requested, now).Some? {
      var parts := Split(credential);
      hide Split, Parse, Verify, Join, Base64UrlToUuid, Base64UrlToText, IsNonNilUuid, IsPlayerName;
      ReadUuidIsWritten(parts[2]);
      ReadUuidIsWritten(parts[3]);
    }
  }

  lemma AcceptedWithinOffset(
      mac: Keyed, sessionKey: string, identityKey: string, claims: Claims, now: int, nonce: Nonce, clientNow: int)
    requires Wellformed(claims) && SafeTimes(now)
    ensures IssueFor(mac, sessionKey, identityKey, claims, now, nonce).Issued?
    ensures
      Accepts(IssueFor(mac, sessionKey, identityKey, claims, now, nonce).credentials, claims.playerName, clientNow)
      <==> -3600 <= clientNow - now < 42900
  {
    CredentialParts(mac, identityKey, claims, now);
    IssueForSucceeds(mac, sessionKey, identityKey, claims, now, nonce);
    var browser, player := UuidToBase64Url(claims.browserUserId).value, UuidToBase64Url(claims.playerId).value;
    TokenIsWebSocketToken(mac, sessionKey, now + SESSION_LIFETIME, browser, player, nonce);
    CredentialLength(mac, identityKey, now + IDENTITY_LIFETIME, browser, player, claims.playerName);
    assert claims.playerName != "";
    hide SessionToken, IdentityCredential, UuidToBase64Url, IsNonNilUuid, IsPlayerName, IsWebSocketToken;
  }

  /**
   * With long enough keys, a valid name is refused only for its credential; otherwise the response passes the
   * client's checks exactly when the client's clock is at most an hour behind the server's and less than
   * 42900 seconds ahead.
   */
  lemma IssuedIsAccepted(
      mac: Keyed, sessionKey: string, identityKey: string, name: string, credential: Option<string>, now: int,
      freshBrowser: Uuid, freshPlayer: Uuid, nonce: Nonce, clientNow: int)
    requires SafeTimes(now)
    ensures
      var r := IssueSession(
        mac, sessionKey, identityKey, name, credential, now, freshBrowser, freshPlayer, nonce);
      && (r.Failed? <==> IsPlayerName(name) && (|sessionKey| < 32 || |identityKey| < 32))
      && (r.Failed? ==> r.failure == ShortKeys)
      && (r.Issued? ==>
            (Accepts(r.credentials, name, clientNow) <==> -3600 <= clientNow - now < 42900))
  {
    if IsPlayerName(name) && |sessionKey| >= 32 && |identityKey| >= 32 {
      var claims :=
        if credential.Some? then VerifyIdentity(mac, identityKey, credential.value, name, now)
        else Some(Claims(freshBrowser, freshPlayer, name));
      if claims.Some? {
        if credential.Some? {
          VerifiedIsWellformed(mac, identityKey, credential.value, name, now);
        }
        assert Wellformed(claims.value) && claims.value.playerName == name;
        hide Wellformed, IssueFor, Accepts, VerifyIdentity, SafeTimes, IsNonNilUuid;
        AcceptedWithinOffset(mac, sessionKey, identityKey, claims.value, now, nonce, clientNow);
      }
    }
  }
}
