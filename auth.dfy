/**
 * The request authorization predicates of the current revision: the admin Bearer
 * token check and the per-share HTTP Basic check (section 2 of RFC 7617), with the
 * password hash abstract.
 */
module Auth {
  import opened Wrappers
  import opened Strings
  import opened Base64
  import opened Domain

  const BearerPrefix := "Bearer "
  const BasicPrefix := "Basic "

  /** The (bool, error) pair the checks return: `err` is the error, None for nil. */
  datatype Verdict = Verdict(ok: bool, err: Option<string>)

  /** EqualFold is reflexive. */
  lemma EqualFoldSame(s: string)
    ensures EqualFold(s, s)
  {
  }

  /**
   * CheckBearerAuth: an absent header or one without the exact prefix "Bearer " is
   * (false, nil); a token that is not standard base64 is (false, error); otherwise
   * the result says whether the decoded token is the admin key. The case-insensitive
   * re-test of the prefix after the case-sensitive one never fails.
   */
  function CheckBearerAuth(auth: string, adminKey: string): (v: Verdict)
    ensures auth == "" || !HasPrefix(auth, BearerPrefix) ==> v == Verdict(false, None)
    ensures v.err.Some? <==> HasPrefix(auth, BearerPrefix) && DecodeString(auth[|BearerPrefix|..]).None?
    ensures v.err.Some? ==> !v.ok
    ensures v.ok <==> HasPrefix(auth, BearerPrefix)
                      && DecodeString(auth[|BearerPrefix|..]).Some?
                      && FromBytes(DecodeString(auth[|BearerPrefix|..]).value) == adminKey
  {
    if auth == "" then Verdict(false, None)
    else if !HasPrefix(auth, BearerPrefix) then Verdict(false, None)
    else if |auth| < |BearerPrefix| || !(EqualFoldSame(BearerPrefix); EqualFold(auth[..|BearerPrefix|], BearerPrefix)) then
      Verdict(false, Some("Invalid Authorization Header"))
    else
      match DecodeString(auth[|BearerPrefix|..])
      case None => Verdict(false, Some("illegal base64 data"))
      case Some(token) => Verdict(FromBytes(token) == adminKey, None)
  }

  /** The Authorization header a client sends for a Bearer token: "Bearer " and the key in base64. */
  function BearerHeader(key: string): (h: string)
    requires IsByteString(key)
    ensures HasPrefix(h, BearerPrefix)
  {
    BearerPrefix + Encode(ToBytes(key))
  }

  /** The admin's own header passes the Bearer check; nothing is an error. */
  lemma AdminUnlocks(key: string)
    requires IsByteString(key)
    ensures CheckBearerAuth(BearerHeader(key), key) == Verdict(true, None)
  {
    var h := BearerHeader(key);
    assert h[|BearerPrefix|..] == Encode(ToBytes(key));
    DecodeStringEncode(ToBytes(key));
    FromToBytes(key);
  }

  /** A Bearer header carrying another (byte) key is refused without an error. */
  lemma OtherKeyRefused(key: string, adminKey: string)
    requires IsByteString(key) && key != adminKey
    ensures CheckBearerAuth(BearerHeader(key), adminKey) == Verdict(false, None)
  {
    var h := BearerHeader(key);
    assert h[|BearerPrefix|..] == Encode(ToBytes(key));
    DecodeStringEncode(ToBytes(key));
    FromToBytes(key);
  }

  /**
   * Go's Request.BasicAuth: an absent header, a prefix other than "Basic " in any
   * letter case, text that is not standard base64, or decoded text without ':' give
   * None; otherwise the text before and after the first ':'.
   */
  function ParseBasicAuth(auth: string): (r: Option<(string, string)>)
    ensures r.Some? ==> |auth| >= |BasicPrefix| && EqualFold(auth[..|BasicPrefix|], BasicPrefix)
    ensures r.Some? ==>
              DecodeString(auth[|BasicPrefix|..]).Some?
              && FromBytes(DecodeString(auth[|BasicPrefix|..]).value) == r.value.0 + ":" + r.value.1
              && ':' !in r.value.0
  {
    if auth == "" then None
    else if |auth| < |BasicPrefix| || !EqualFold(auth[..|BasicPrefix|], BasicPrefix) then None
    else
      match DecodeString(auth[|BasicPrefix|..])
      case None => None
      case Some(c) => Cut(FromBytes(c), ':')
  }

  /** The Authorization header a client sends for HTTP Basic credentials. */
  function BasicHeader(user: string, pass: string): (h: string)
    requires IsByteString(user) && IsByteString(pass)
    ensures HasPrefix(h, BasicPrefix)
  {
    var text := user + ":" + pass;
    assert IsByteString(text) by {
      assert forall i :: 0 <= i < |text| ==> text[i] == (if i < |user| then user[i] else if i == |user| then ':' else pass[i - |user| - 1]);
    }
    BasicPrefix + Encode(ToBytes(text))
  }

  /** Parsing gives back the credentials a client put in, if the user name has no ':'. */
  lemma {:induction false} BasicRoundTrip(user: string, pass: string)
    requires IsByteString(user) && IsByteString(pass) && ':' !in user
    ensures ParseBasicAuth(BasicHeader(user, pass)) == Some((user, pass))
  {
    var text := user + ":" + pass;
    assert IsByteString(text) by {
      assert forall i :: 0 <= i < |text| ==> text[i] == (if i < |user| then user[i] else if i == |user| then ':' else pass[i - |user| - 1]);
    }
    var h := BasicHeader(user, pass);
    assert h[..|BasicPrefix|] == BasicPrefix;
    EqualFoldSame(BasicPrefix);
    assert h[|BasicPrefix|..] == Encode(ToBytes(text));
    DecodeStringEncode(ToBytes(text));
    FromToBytes(text);
    CutAtFirst(user, ':', pass);
  }

  /** checkPasswordHash: whether `password` unlocks the stored `hash`. */
  function CheckPasswordHash(password: string, hash: string, h: Hasher): (r: bool)
    ensures Sound(h) && h.generate(password) == Some(hash) ==> r
  {
    h.compare(hash, password)
  }

  /**
   * CheckBasicAuth: a share without a password is open to every request; on a
   * protected share a missing or malformed Basic header is (false, error), and the
   * request passes exactly when the user name is the share id and the password
   * unlocks the stored hash.
   */
  function CheckBasicAuth(auth: string, sh: Share, h: Hasher): (v: Verdict)
    ensures !HasPassword(sh) ==> v == Verdict(true, None)
    ensures v.err.Some? <==> HasPassword(sh) && ParseBasicAuth(auth).None?
    ensures v.err.Some? ==> !v.ok
    ensures v.ok <==>
              || !HasPassword(sh)
              || (ParseBasicAuth(auth).Some? && ParseBasicAuth(auth).value.0 == sh.id.text
                  && h.compare(sh.password.value, ParseBasicAuth(auth).value.1))
  {
    if HasPassword(sh) then
      match ParseBasicAuth(auth)
      case None => Verdict(false, Some("invalid auth header"))
      case Some((sid, pass)) =>
        if sid != sh.id.text then Verdict(false, None)
        else if !CheckPasswordHash(pass, sh.password.value, h) then Verdict(false, None)
        else Verdict(true, None)
    else Verdict(true, None)
  }

  /**
   * The owner's credentials open a protected share: the share id as user name and
   * the plaintext whose hash is stored, under a sound hasher.
   */
  lemma OwnerUnlocks(sh: Share, plain: string, h: Hasher)
    requires sh.password.Some?
    requires Sound(h) && h.generate(plain) == Some(sh.password.value)
    requires IsByteString(sh.id.text) && IsByteString(plain) && ':' !in sh.id.text
    ensures CheckBasicAuth(BasicHeader(sh.id.text, plain), sh, h) == Verdict(true, None)
  {
    BasicRoundTrip(sh.id.text, plain);
  }

  /** Credentials for another user name are refused without an error. */
  lemma OtherUserRefused(sh: Share, user: string, plain: string, h: Hasher)
    requires HasPassword(sh) && user != sh.id.text
    requires IsByteString(user) && IsByteString(plain) && ':' !in user
    ensures CheckBasicAuth(BasicHeader(user, plain), sh, h) == Verdict(false, None)
  {
    BasicRoundTrip(user, plain);
  }
}
