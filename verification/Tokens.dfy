/** Lock nonces and execution tokens: what their keyed hashes commit to.
    Models apps/api/src/sea/execution-token.util.ts and the owner messages of
    apps/api/src/sea/intent-validator.service.ts:135-167. */
module Tokens {
  import opened Prelude

  // ---------------------------------------------------------------------------
  // Joined payloads
  // ---------------------------------------------------------------------------

  predicate BarFree(s: string) {
    '|' !in s
  }

  /** `parts.join('|')`. */
  function Join(parts: seq<string>): string {
    if parts == [] then "" else if |parts| == 1 then parts[0] else parts[0] + "|" + Join(parts[1..])
  }

  lemma FirstBarDecides(a: string, b: string, x: string, y: string)
    requires BarFree(a) && BarFree(b) && a + "|" + x == b + "|" + y
    ensures a == b && x == y
  {
    var s, t := a + "|" + x, b + "|" + y;
    assert s[|a|] == '|' && t[|b|] == '|';
    if |a| < |b| {
      assert false;
    }
    if |b| < |a| {
      assert false;
    }
    assert s[..|a|] == a && t[..|b|] == b;
    assert s[|a| + 1..] == x && t[|b| + 1..] == y;
  }

  lemma NoBarLeft(a: string, b: string, y: string)
    requires BarFree(a)
    ensures a != b + "|" + y
  {
    assert (b + "|" + y)[|b|] == '|';
    if a == b + "|" + y {
      assert false;
    }
  }

  /** Different lists of bar-free fields never join to the same payload, whatever their lengths. */
  lemma {:induction false} JoinInjective(a: seq<string>, b: seq<string>)
    requires a != [] && b != [] && Join(a) == Join(b)
    requires (forall s :: s in a ==> BarFree(s)) && (forall s :: s in b ==> BarFree(s))
    ensures a == b
  {
    if |a| > 1 && |b| > 1 {
      FirstBarDecides(a[0], b[0], Join(a[1..]), Join(b[1..]));
      JoinInjective(a[1..], b[1..]);
      assert a == [a[0]] + a[1..] && b == [b[0]] + b[1..];
    } else if |a| > 1 {
      NoBarLeft(b[0], a[0], Join(a[1..]));
    } else if |b| > 1 {
      NoBarLeft(a[0], b[0], Join(b[1..]));
    } else {
      assert a == [a[0]] && b == [b[0]];
    }
  }

  // ---------------------------------------------------------------------------
  // The environment
  // ---------------------------------------------------------------------------

  /** What the service calls but this model does not open: the keyed hash, date text, signer
      recovery, and the configured chain, secrets and lock length. */
  datatype Env = Env(hmac: (string, string) -> string, iso: int -> string, parse: string -> Option<int>,
                     recover: (string, string) -> Option<Address>, chainId: string, nonceSecret: string,
                     tokenSecret: string, lockSecs: nat, devSkip: bool)

  /** HMAC-SHA-256 (section 2 of RFC 2104) as an ideal hash: equal outputs come from equal keys and
      messages. Its text is base64url (section 5 of RFC 4648), so it holds no bar; date text reads
      back as the date and holds no bar either. */
  ghost predicate Ideal(env: Env) {
    && (forall k1, m1, k2, m2 :: env.hmac(k1, m1) == env.hmac(k2, m2) ==> k1 == k2 && m1 == m2)
    && (forall k, m :: BarFree(env.hmac(k, m)))
    && (forall t :: BarFree(env.iso(t)) && env.parse(env.iso(t)) == Some(t))
    && BarFree(env.chainId)
  }

  const NONCE_VERSION_TAG := "sea-lock-nonce-v1"
  const TOKEN_VERSION_TAG := "sea-execution-token-v1"

  function NonceFields(env: Env, id: string, owner: Address, preparedQuoteAt: int): seq<string> {
    [NONCE_VERSION_TAG, id, owner, env.iso(preparedQuoteAt), env.chainId]
  }

  function IssueLockNonce(env: Env, id: string, owner: Address, preparedQuoteAt: int): string {
    env.hmac(env.nonceSecret, Join(NonceFields(env, id, owner, preparedQuoteAt)))
  }

  predicate VerifyLockNonce(env: Env, supplied: string, id: string, owner: Address, preparedQuoteAt: int) {
    supplied == IssueLockNonce(env, id, owner, preparedQuoteAt)
  }

  function TokenFields(env: Env, id: string, owner: Address, lockUntil: int, lockNonce: string): seq<string> {
    [TOKEN_VERSION_TAG, id, owner, env.chainId, env.iso(lockUntil), lockNonce]
  }

  function IssueExecutionToken(env: Env, id: string, owner: Address, lockUntil: int, lockNonce: string): string {
    env.hmac(env.tokenSecret, Join(TokenFields(env, id, owner, lockUntil, lockNonce)))
  }

  predicate VerifyExecutionToken(env: Env, supplied: string, id: string, owner: Address, lockUntil: int, lockNonce: string)
  {
    supplied == IssueExecutionToken(env, id, owner, lockUntil, lockNonce)
  }

  /** The token of one lock in one READY epoch. */
  function TokenOf(env: Env, id: string, owner: Address, lockUntil: int, preparedQuoteAt: int): string {
    IssueExecutionToken(env, id, owner, lockUntil, IssueLockNonce(env, id, owner, preparedQuoteAt))
  }

  function WalletLockMessage(env: Env, id: string, owner: Address, lockNonce: string, untilIso: string): string {
    Join(["sea:wallet-lock", id, owner, env.chainId, lockNonce, untilIso])
  }

  function CancelMessage(env: Env, id: string, owner: Address): string {
    Join(["SEA-CANCEL-INTENT", "v=1", "chainId=" + env.chainId, "owner=" + owner, "intentId=" + id])
  }

  /** Two nonces are equal only for the same intent, owner and epoch. */
  lemma NonceBinds(env: Env, id: string, owner: Address, at: int, id': string, owner': Address, at': int)
    requires Ideal(env) && BarFree(id) && BarFree(id') && BarFree(owner) && BarFree(owner')
    requires IssueLockNonce(env, id, owner, at) == IssueLockNonce(env, id', owner', at')
    ensures id == id' && owner == owner' && at == at'
  {
    var f, f' := NonceFields(env, id, owner, at), NonceFields(env, id', owner', at');
    JoinInjective(f, f');
    assert f[1] == f'[1] && f[2] == f'[2] && f[3] == f'[3];
    assert env.parse(env.iso(at)) == env.parse(env.iso(at'));
  }

  /** Two tokens are equal only for the same intent, owner, lock and epoch. */
  lemma TokenBinds(env: Env, id: string, owner: Address, lock: int, at: int,
                   id': string, owner': Address, lock': int, at': int)
    requires Ideal(env) && BarFree(id) && BarFree(id') && BarFree(owner) && BarFree(owner')
    requires TokenOf(env, id, owner, lock, at) == TokenOf(env, id', owner', lock', at')
    ensures id == id' && owner == owner' && lock == lock' && at == at'
  {
    var n, n' := IssueLockNonce(env, id, owner, at), IssueLockNonce(env, id', owner', at');
    var f, f' := TokenFields(env, id, owner, lock, n), TokenFields(env, id', owner', lock', n');
    JoinInjective(f, f');
    assert f[1] == f'[1] && f[2] == f'[2] && f[4] == f'[4] && f[5] == f'[5];
    assert env.parse(env.iso(lock)) == env.parse(env.iso(lock'));
    NonceBinds(env, id, owner, at, id', owner', at');
  }

  /** The version tags keep the two apart: no nonce is a token, even under one shared secret. */
  lemma NonceIsNoToken(env: Env, id: string, owner: Address, at: int, id': string, owner': Address, lock: int, at': int)
    requires Ideal(env) && BarFree(id) && BarFree(id') && BarFree(owner) && BarFree(owner')
    ensures IssueLockNonce(env, id, owner, at) != TokenOf(env, id', owner', lock, at')
  {
    var f := NonceFields(env, id, owner, at);
    var f' := TokenFields(env, id', owner', lock, IssueLockNonce(env, id', owner', at'));
    if IssueLockNonce(env, id, owner, at) == TokenOf(env, id', owner', lock, at') {
      JoinInjective(f, f');
      assert false;
    }
  }

  /** A token for another chain never verifies here. */
  lemma TokenBindsChain(env: Env, chain: string, id: string, owner: Address, lock: int, at: int)
    requires Ideal(env) && BarFree(id) && BarFree(owner) && BarFree(chain) && chain != env.chainId
    ensures TokenOf(env.(chainId := chain), id, owner, lock, at) != TokenOf(env, id, owner, lock, at)
  {
    var env' := env.(chainId := chain);
    var f := TokenFields(env', id, owner, lock, IssueLockNonce(env', id, owner, at));
    var f' := TokenFields(env, id, owner, lock, IssueLockNonce(env, id, owner, at));
    if TokenOf(env', id, owner, lock, at) == TokenOf(env, id, owner, lock, at) {
      JoinInjective(f, f');
      assert false;
    }
  }

  /** An owner's wallet-lock signature covers one intent, one epoch's nonce and one lock end. */
  lemma LockMessageBinds(env: Env, id: string, owner: Address, at: int, lock: int,
                         id': string, owner': Address, at': int, lock': int)
    requires Ideal(env) && BarFree(id) && BarFree(id') && BarFree(owner) && BarFree(owner')
    requires WalletLockMessage(env, id, owner, IssueLockNonce(env, id, owner, at), env.iso(lock))
          == WalletLockMessage(env, id', owner', IssueLockNonce(env, id', owner', at'), env.iso(lock'))
    ensures id == id' && owner == owner' && at == at' && lock == lock'
  {
    var n, n' := IssueLockNonce(env, id, owner, at), IssueLockNonce(env, id', owner', at');
    var f := ["sea:wallet-lock", id, owner, env.chainId, n, env.iso(lock)];
    var f' := ["sea:wallet-lock", id', owner', env.chainId, n', env.iso(lock')];
    JoinInjective(f, f');
    assert f[4] == f'[4] && f[5] == f'[5];
    assert env.parse(env.iso(lock)) == env.parse(env.iso(lock'));
    NonceBinds(env, id, owner, at, id', owner', at');
  }
}
