/**
 * sendJSON of the current revision: before a reply is encoded, a single share is
 * secured and every share of a share list is secured in place, so that no password
 * (not even its hash) leaves the server; any other value goes out unchanged.
 */
module Output {
  import opened Wrappers
  import opened Domain
  import opened Http

  /** Share.Secure: a present password becomes the present empty string. */
  function Secure(sh: Share): (r: Share)
    ensures sh.password.Some? ==> r.password == Some("")
    ensures sh.password.None? ==> r.password.None?
    ensures r.(password := sh.password) == sh
  {
    if sh.password.Some? then sh.(password := Some("")) else sh
  }

  /** Whether a share carries no password text. */
  predicate Scrubbed(sh: Share) {
    sh.password.None? || sh.password == Some("")
  }

  /** Securing twice is securing once, and a secured share is scrubbed. */
  lemma SecureIdempotent(sh: Share)
    ensures Secure(Secure(sh)) == Secure(sh)
    ensures Scrubbed(Secure(sh))
    ensures !HasPassword(Secure(sh))
  {
  }

  /** Every share of a list secured, in the same order. */
  function SecureEach(s: seq<Share>): (r: seq<Share>)
    ensures |r| == |s|
    ensures forall i :: 0 <= i < |s| ==> r[i] == Secure(s[i])
  {
    seq(|s|, i requires 0 <= i < |s| => Secure(s[i]))
  }

  /** The loop of sendJSON's []Share case: `v[i].Secure()` for every index, in place. */
  method SecureInPlace(a: array<Share>)
    modifies a
    ensures a[..] == SecureEach(old(a[..]))
  {
    var i := 0;
    while i < a.Length
      invariant 0 <= i <= a.Length
      invariant forall k :: 0 <= k < i ==> a[k] == Secure(old(a[k]))
      invariant forall k :: i <= k < a.Length ==> a[k] == old(a[k])
    {
      a[i] := Secure(a[i]);
      i := i + 1;
    }
  }

  /** What sendJSON encodes for a body: shares secured, everything else as it is. */
  function ScrubBody(b: Body): (r: Body)
    ensures b.ShareBody? ==> r == ShareBody(Secure(b.share), b.files)
    ensures b.ShareList? ==> r == ShareList(SecureEach(b.shares))
    ensures !b.ShareBody? && !b.ShareList? ==> r == b
  {
    match b
    case ShareBody(sh, files) => ShareBody(Secure(sh), files)
    case ShareList(s) => ShareList(SecureEach(s))
    case _ => b
  }

  /** Whether no share in a body carries password text. */
  predicate NoSecrets(b: Body) {
    match b
    case ShareBody(sh, _) => Scrubbed(sh)
    case ShareList(s) => forall i :: 0 <= i < |s| ==> Scrubbed(s[i])
    case _ => true
  }

  /** Scrubbing removes every password, keeps a list's length and order, and is idempotent. */
  lemma ScrubBodyProperties(b: Body)
    ensures NoSecrets(ScrubBody(b))
    ensures ScrubBody(ScrubBody(b)) == ScrubBody(b)
    ensures b.ShareList? ==>
              && |ScrubBody(b).shares| == |b.shares|
              && forall i :: 0 <= i < |b.shares| ==> ScrubBody(b).shares[i].id == b.shares[i].id
  {
    if b.ShareList? {
      assert SecureEach(SecureEach(b.shares)) == SecureEach(b.shares);
    }
  }

  /** The error sendJSON returns when encoding fails. */
  const EncodeError := HttpError(Some("json: encoding failed"), "Can't encode data", 500)

  /**
   * What sendJSON returns for a body: a 500 "Can't encode data" when encoding fails,
   * otherwise success with the body as secured.
   */
  function Sent(b: Body, faults: set<Fault>): (r: Reply)
    ensures EncodeFault in faults <==> r == Failed(EncodeError)
    ensures r.Done? ==> r.body == ScrubBody(b) && NoSecrets(r.body)
  {
    ScrubBodyProperties(b);
    if EncodeFault in faults then Failed(EncodeError) else Done(ScrubBody(b))
  }

  /**
   * sendJSON: secure the shares of the body (the list in place), then encode; an
   * encoding failure is a 500 "Can't encode data", otherwise the handler succeeds.
   */
  method SendJson(b: Body, faults: set<Fault>) returns (r: Reply)
    ensures r == Sent(b, faults)
    ensures r.Done? ==> NoSecrets(r.body)
  {
    var res := b;
    match b {
      case ShareBody(sh, files) =>
        res := ShareBody(Secure(sh), files);
      case ShareList(s) =>
        var a := new Share[|s|](i requires 0 <= i < |s| => s[i]);
        assert a[..] == s;
        SecureInPlace(a);
        res := ShareList(a[..]);
      case _ =>
    }
    ScrubBodyProperties(b);
    if EncodeFault in faults {
      r := Failed(EncodeError);
    } else {
      r := Done(res);
    }
  }
}
