/** Authentication tokens: src/common/crypto.cpp over an uninterpreted HMAC. */
module Crypto {
  import opened Basics
  import Hex
  import Window

  type Mac = m: Bytes | |m| == 32 witness seq(32, _ => 0)

  /** HMAC-SHA256 of a key and a message. */
  type Hmac = (string, string) -> Mac

  /** The authenticated message: the time stamp in hex, a colon, the user. */
  function MacMessage(user: string, timestamp: u64): string {
    Hex.HexStamp(timestamp) + ":" + user
  }

  function AuthToken(hmac: Hmac, user: string, secret: string, timestamp: u64): string {
    Hex.Encoded(hmac(secret, MacMessage(user, timestamp)))
  }

  /** What is authenticated, character by character: sixteen lowercase hex digits that denote
      the stamp, a colon, the user. */
  predicate IsSigned(m: string, user: string, timestamp: u64) {
    && |m| == 17 + |user|
    && (forall i :: 0 <= i < 16 ==> '0' <= m[i] <= '9' || 'a' <= m[i] <= 'f')
    && Hex.Value(m[..16]) == timestamp
    && m[16] == ':'
    && m[17..] == user
  }

  lemma MacMessageIsSigned(user: string, timestamp: u64)
    ensures IsSigned(MacMessage(user, timestamp), user, timestamp)
  {
    Hex.HexStampValue(timestamp);
    Hex.HexStampDigits(timestamp);
    assert MacMessage(user, timestamp)[..16] == Hex.HexStamp(timestamp);
    assert forall i :: 0 <= i < 16 ==> MacMessage(user, timestamp)[i] == Hex.HexStamp(timestamp)[i];
  }

  method BuildAuthToken(hmac: Hmac, user: string, secret: string, timestamp: u64) returns (token: string)
    ensures token == AuthToken(hmac, user, secret, timestamp)
    ensures exists m: string :: IsSigned(m, user, timestamp) && token == Hex.Encoded(hmac(secret, m))
  {
    MacMessageIsSigned(user, timestamp);
    var data := Hex.HexStamp(timestamp) + ":" + user;
    token := Hex.HexEncode(hmac(secret, data));
  }

  // ---- Verification ----

  /** Everything but the clock that a verification depends on. */
  datatype Claim = Claim(hmac: Hmac, user: string, secret: string, token: string)
  {
    function Test(): Window.Test {
      (t: u64) => AuthToken(hmac, user, secret, t) == token
    }
  }

  ghost function Verify(c: Claim, timestamp: u64, window: u64): Window.Verdict {
    Window.Judge(c.Test(), timestamp, window)
  }

  method VerifyAuthToken(c: Claim, timestamp: u64, window: u64) returns (ok: bool)
    requires Verify(c, timestamp, window) != Window.Hangs
    ensures ok <==> Verify(c, timestamp, window) == Window.Accepts
  {
    ok := Window.Search(c.Test(), timestamp, window);
  }

  /** An honest token is accepted when the claimed stamp stays clear of both ends of
      the 64-bit range, at the very last admissible stamp included. */
  lemma HonestTokenAccepted(hmac: Hmac, user: string, secret: string, timestamp: u64, window: u64)
    requires window <= timestamp && timestamp + window < TWO_64
    ensures var claim := Claim(hmac, user, secret, AuthToken(hmac, user, secret, timestamp));
            Verify(claim, timestamp, window) == Window.Accepts
  {
    assert Claim(hmac, user, secret, AuthToken(hmac, user, secret, timestamp)).Test()(timestamp);
  }

  // ---- Injectivity ----

  /** Stamp and user can be read back from the message, whatever characters the user
      name contains. */
  lemma MacMessageInjective(u1: string, t1: u64, u2: string, t2: u64)
    requires MacMessage(u1, t1) == MacMessage(u2, t2)
    ensures u1 == u2 && t1 == t2
  {
    Hex.HexStampValue(t1);
    Hex.HexStampValue(t2);
    var m := MacMessage(u1, t1);
    assert Hex.HexStamp(t1) == m[..16] == Hex.HexStamp(t2);
    assert u1 == m[17..] == u2;
  }

  /** If the HMAC does not collide on two messages, equal tokens mean equal user and
      second. */
  lemma TokenInjective(hmac: Hmac, secret: string, u1: string, t1: u64, u2: string, t2: u64)
    requires hmac(secret, MacMessage(u1, t1)) == hmac(secret, MacMessage(u2, t2)) ==>
               MacMessage(u1, t1) == MacMessage(u2, t2)
    ensures AuthToken(hmac, u1, secret, t1) == AuthToken(hmac, u2, secret, t2) <==> u1 == u2 && t1 == t2
  {
    if AuthToken(hmac, u1, secret, t1) == AuthToken(hmac, u2, secret, t2) {
      Hex.EncodedInjective(hmac(secret, MacMessage(u1, t1)), hmac(secret, MacMessage(u2, t2)));
      MacMessageInjective(u1, t1, u2, t2);
    }
  }

  /** No other second of the same user collides with the one a token was made for. */
  ghost predicate NoCollision(hmac: Hmac, secret: string, user: string, made: u64) {
    forall t: u64 :: hmac(secret, MacMessage(user, t)) == hmac(secret, MacMessage(user, made)) ==> t == made
  }

  /** The first 32 characters of a message as bytes. */
  function FirstCharacters(message: string): Mac {
    seq(32, i requires 0 <= i < 32 => if i < |message| && message[i] as int < 0x100 then message[i] as int else 0)
  }

  /** Functions to 32 bytes that meet `NoCollision` everywhere do exist. */
  lemma NoCollisionIsPossible(secret: string, user: string, made: u64)
    ensures NoCollision((key: string, message: string) => FirstCharacters(message), secret, user, made)
  {
    forall t: u64 | FirstCharacters(MacMessage(user, t)) == FirstCharacters(MacMessage(user, made))
      ensures t == made
    {
      FirstCharactersOfStamp(user, t);
      FirstCharactersOfStamp(user, made);
      var (m, n) := (FirstCharacters(MacMessage(user, t)), FirstCharacters(MacMessage(user, made)));
      assert forall i :: 0 <= i < 16 ==> Hex.HexStamp(t)[i] as int == m[i] == n[i] == Hex.HexStamp(made)[i] as int;
      assert Hex.HexStamp(t) == Hex.HexStamp(made);
      Hex.HexStampValue(t);
    }
  }

  lemma FirstCharactersOfStamp(user: string, t: u64)
    ensures |Hex.HexStamp(t)| == 16 && Hex.Value(Hex.HexStamp(t)) == t
    ensures forall i :: 0 <= i < 16 ==> FirstCharacters(MacMessage(user, t))[i] == Hex.HexStamp(t)[i] as int
  {
    Hex.HexStampValue(t);
    Hex.HexStampDigits(t);
    assert forall i :: 0 <= i < 16 ==> Hex.HexStamp(t)[i] as int < 0x80;
  }

  /** Under that hypothesis an honest token is accepted at a claimed time exactly when
      that time is within the window of the second it was made for. */
  lemma HonestTokenWindow(hmac: Hmac, user: string, secret: string, made: u64, claimed: u64, window: u64)
    requires NoCollision(hmac, secret, user, made)
    requires 2 * window < TWO_64 && (claimed + window) % TWO_64 != MAX_U64
    ensures var claim := Claim(hmac, user, secret, AuthToken(hmac, user, secret, made));
            Verify(claim, claimed, window) == Window.Accepts <==>
              window <= claimed && claimed + window < TWO_64 && claimed - window <= made <= claimed + window
  {
    var c := Claim(hmac, user, secret, AuthToken(hmac, user, secret, made));
    Window.WindowExact(c.Test(), claimed, window);
    OnlyItsOwnSecond(c, made);
    assert c.Test()(made);
  }

  lemma OnlyItsOwnSecond(c: Claim, made: u64)
    requires NoCollision(c.hmac, c.secret, c.user, made) && c.token == AuthToken(c.hmac, c.user, c.secret, made)
    ensures forall t: u64 :: c.Test()(t) <==> t == made
  {
    var (hmac, user, secret) := (c.hmac, c.user, c.secret);
    forall t: u64 | AuthToken(hmac, user, secret, t) == AuthToken(hmac, user, secret, made)
      ensures t == made
    {
      Hex.EncodedInjective(hmac(secret, MacMessage(user, t)), hmac(secret, MacMessage(user, made)));
    }
  }
}
