/** Magic-link tokens: signing, verifying against any of several secrets, and peeking. The MAC is
    an arbitrary function of secret and payload. */
module ApprovalToken {
  import opened GoStrings
  import opened Base64Url
  import opened Decimals

  const ACTION_APPROVE := "approve"
  const ACTION_REJECT := "reject"

  predicate IsAction(a: string) { a == ACTION_APPROVE || a == ACTION_REJECT }

  datatype Verified = Claims(messageId: string, action: string, expiresAt: int) | InvalidToken | TokenExpired

  type Mac = (string, string) -> string

  ghost predicate ByteMac(mac: Mac) { forall s, p :: IsBytes(mac(s, p)) }

  const NANOS_PER_SECOND := 1_000_000_000

  predicate Reserved(c: char) { c == '|' || c == '\n' }

  function Payload(messageId: string, action: string, exp: int): string {
    messageId + "|" + action + "|" + FormatInt(exp)
  }

  function Token(mac: Mac, secret: string, payload: string): string
    requires IsBytes(payload) && IsBytes(mac(secret, payload))
  {
    Encode(payload) + "." + Encode(mac(secret, payload))
  }

  lemma BytesConcat(a: string, b: string)
    requires IsBytes(a) && IsBytes(b)
    ensures IsBytes(a + b)
  {
  }

  lemma ActionBytes(action: string)
    requires IsAction(action)
    ensures IsBytes(action) && '|' !in action
  {
  }

  lemma BarBytes()
    ensures IsBytes("|")
  {
  }

  lemma PayloadBytes(messageId: string, action: string, exp: int)
    requires IsBytes(messageId) && IsAction(action)
    ensures IsBytes(Payload(messageId, action, exp))
  {
    ParseFormat(exp);
    ActionBytes(action);
    BarBytes();
    JoinedBytes(messageId, "|", action, FormatInt(exp));
  }

  lemma JoinedBytes(a: string, bar: string, b: string, c: string)
    requires IsBytes(a) && IsBytes(bar) && IsBytes(b) && IsBytes(c)
    ensures IsBytes(a + bar + b + bar + c)
  {
    BytesConcat(a, bar);
    BytesConcat(a + bar, b);
    BytesConcat(a + bar + b, bar);
    BytesConcat(a + bar + b + bar, c);
  }

  function Sign(mac: Mac, secret: string, messageId: string, action: string, exp: int): Result<string>
    requires IsBytes(messageId) && ByteMac(mac)
  {
    if !IsAction(action) then Err("invalid action")
    else if exists i :: 0 <= i < |messageId| && Reserved(messageId[i])
      then Err("messageID contains reserved characters")
    else
      PayloadBytes(messageId, action, exp);
      Ok(Token(mac, secret, Payload(messageId, action, exp)))
  }

  /** What the payload claims, once its signature is accepted. */
  function ReadPayload(payload: string, now: int): Verified {
    var fields := Split(payload, '|');
    if |fields| != 3 then InvalidToken
    else
      match ParseInt64(fields[2])
      case None => InvalidToken
      case Some(exp) =>
        if !IsAction(fields[1]) then InvalidToken
        else if now > exp * NANOS_PER_SECOND then TokenExpired
        else Claims(fields[0], fields[1], exp)
  }

  predicate Matches(mac: Mac, secrets: seq<string>, payload: string, sig: string) {
    exists i :: 0 <= i < |secrets| && sig == mac(secrets[i], payload)
  }

  method Verify(mac: Mac, secrets: seq<string>, token: string, now: int) returns (r: Verified)
    ensures r == VerifyToken(mac, secrets, token, now)
  {
    var parts := Cut(token, '.');
    if parts.None? {
      return InvalidToken;
    }
    var payload := Decode(parts.value.0);
    if payload.None? {
      return InvalidToken;
    }
    var sig := Decode(parts.value.1);
    if sig.None? {
      return InvalidToken;
    }
    var matched := false;
    for i := 0 to |secrets|
      invariant !matched
      invariant forall j :: 0 <= j < i ==> sig.value != mac(secrets[j], payload.value)
    {
      if sig.value == mac(secrets[i], payload.value) {
        matched := true;
        break;
      }
    }
    if !matched {
      return InvalidToken;
    }
    r := ReadPayload(payload.value, now);
  }

  function VerifyToken(mac: Mac, secrets: seq<string>, token: string, now: int): Verified {
    match Cut(token, '.')
    case None => InvalidToken
    case Some((first, second)) =>
      match (Decode(first), Decode(second))
      case (Some(payload), Some(sig)) =>
        if Matches(mac, secrets, payload, sig) then ReadPayload(payload, now) else InvalidToken
      case _ => InvalidToken
  }

  function PeekMessageId(token: string): Option<string> {
    match Cut(token, '.')
    case None => None
    case Some((first, _)) =>
      match Decode(first)
      case None => None
      case Some(payload) =>
        var fields := Split(payload, '|');
        if |fields| != 3 || fields[0] == "" then None else Some(fields[0])
  }

  // ---- Round trips ----

  lemma TokenTakesApart(mac: Mac, secret: string, payload: string)
    requires IsBytes(payload) && IsBytes(mac(secret, payload))
    ensures var t := Token(mac, secret, payload);
      Cut(t, '.') == Some((Encode(payload), Encode(mac(secret, payload))))
      && Decode(Encode(payload)) == Some(payload) && Decode(Encode(mac(secret, payload))) == Some(mac(secret, payload))
  {
    EncodedIsSafe(payload);
    CutFirst(Encode(payload), '.', Encode(mac(secret, payload)));
    DecodeEncode(payload);
    DecodeEncode(mac(secret, payload));
  }

  lemma PayloadFields(messageId: string, action: string, exp: int)
    requires '|' !in messageId && IsAction(action)
    ensures Split(Payload(messageId, action, exp), '|') == [messageId, action, FormatInt(exp)]
  {
    ParseFormat(exp);
    var rest := action + "|" + FormatInt(exp);
    assert Payload(messageId, action, exp) == messageId + "|" + rest;
    SplitCons(messageId, '|', rest);
    ActionBytes(action);
    SplitCons(action, '|', FormatInt(exp));
    SplitNoSep(FormatInt(exp), '|');
  }

  lemma ReadBack(messageId: string, action: string, exp: int, now: int)
    requires '|' !in messageId && IsAction(action) && Int64(exp)
    ensures ReadPayload(Payload(messageId, action, exp), now) ==
      if now > exp * NANOS_PER_SECOND then TokenExpired else Claims(messageId, action, exp)
  {
    PayloadFields(messageId, action, exp);
    ParseFormat(exp);
  }

  /** Verifying a signed token: invalid unless some listed secret gives the same MAC, expired when
      past its time, and otherwise exactly the claims that were signed. */
  lemma VerifyUndoesSign(mac: Mac, secret: string, secrets: seq<string>, messageId: string,
    action: string, exp: int, now: int)
    requires IsBytes(messageId) && ByteMac(mac) && Int64(exp)
    ensures Sign(mac, secret, messageId, action, exp).Ok? <==>
      (action == "approve" || action == "reject") && '|' !in messageId && '\n' !in messageId
    ensures Sign(mac, secret, messageId, action, exp).Ok? ==>
      var payload := Payload(messageId, action, exp);
      VerifyToken(mac, secrets, Sign(mac, secret, messageId, action, exp).value, now) ==
        if !Matches(mac, secrets, payload, mac(secret, payload)) then InvalidToken
        else if now > exp * 1_000_000_000 then TokenExpired
        else Claims(messageId, action, exp)
  {
    if Sign(mac, secret, messageId, action, exp).Ok? {
      var payload := Payload(messageId, action, exp);
      PayloadBytes(messageId, action, exp);
      TokenTakesApart(mac, secret, payload);
      ReadBack(messageId, action, exp, now);
    }
  }

  /** In particular the signing secret anywhere in the list verifies the token until it expires. */
  lemma SigningSecretVerifies(mac: Mac, secrets: seq<string>, k: nat, messageId: string,
    action: string, exp: int, now: int)
    requires IsBytes(messageId) && ByteMac(mac) && Int64(exp) && k < |secrets|
    requires Sign(mac, secrets[k], messageId, action, exp).Ok? && now <= exp * NANOS_PER_SECOND
    ensures VerifyToken(mac, secrets, Sign(mac, secrets[k], messageId, action, exp).value, now) ==
      Claims(messageId, action, exp)
  {
    VerifyUndoesSign(mac, secrets[k], secrets, messageId, action, exp, now);
  }

  /** On any token at all, peeking names the message verification would name, except that an empty
      name verifies but cannot be peeked at. */
  lemma PeekAgrees(mac: Mac, secrets: seq<string>, token: string, now: int)
    requires VerifyToken(mac, secrets, token, now).Claims?
    ensures var id := VerifyToken(mac, secrets, token, now).messageId;
      PeekMessageId(token) == if id == "" then None else Some(id)
  {
  }

  /** Peeking at a signed token. */
  lemma PeekUndoesSign(mac: Mac, secret: string, messageId: string, action: string, exp: int)
    requires IsBytes(messageId) && ByteMac(mac) && Sign(mac, secret, messageId, action, exp).Ok?
    ensures PeekMessageId(Sign(mac, secret, messageId, action, exp).value) ==
      if messageId == "" then None else Some(messageId)
  {
    var payload := Payload(messageId, action, exp);
    PayloadBytes(messageId, action, exp);
    TokenTakesApart(mac, secret, payload);
    PayloadFields(messageId, action, exp);
  }

  /** A token that verifies carries a signature some listed secret gives for its own payload, a known
      action and a time that has not passed. */
  lemma VerifiedMeans(mac: Mac, secrets: seq<string>, token: string, now: int)
    requires VerifyToken(mac, secrets, token, now).Claims?
    ensures var c := VerifyToken(mac, secrets, token, now);
      && (c.action == "approve" || c.action == "reject")
      && now <= c.expiresAt * 1_000_000_000 && Int64(c.expiresAt)
      && exists first, second, payload :: token == first + "." + second && Decode(first) == Some(payload)
           && Decode(second).Some? && Matches(mac, secrets, payload, Decode(second).value)
           && |Split(payload, '|')| == 3 && Split(payload, '|')[0] == c.messageId && Split(payload, '|')[1] == c.action
  {
    var (first, second) := Cut(token, '.').value;
    CutJoins(token, '.');
    assert token == first + "." + second;
  }
}
