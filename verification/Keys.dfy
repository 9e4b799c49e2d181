/** Key material of the PQXDH handshake and the Double Ratchet, as terms of a free algebra.

    Each primitive of apps/mobile/src/crypto/session.ts is a constructor, so two keys are the
    same exactly when they were derived the same way. The one law that is not freeness is the
    symmetry of X25519: an agreement is an unordered pair of secrets.
 */
module Keys {
  /** An X25519 or ML-KEM secret, named by the order in which it was generated. */
  type Secret = nat

  datatype PublicKey = PublicKey(secret: Secret)

  /** The X25519 shared secret of two key pairs, the lower-numbered one first. */
  datatype Agreement = Agreement(low: Secret, high: Secret)

  datatype KemCiphertext = KemCiphertext(recipient: Secret, seed: Secret)

  /** ML-KEM output. Decapsulating under the wrong key yields an unrelated secret, not an error. */
  datatype KemSecret =
    | Encapsulated(recipient: Secret, seed: Secret)
    | ImplicitReject(secret: Secret, ciphertext: KemCiphertext)

  datatype Key =
    | InitialRoot(dh: Agreement, kem: KemSecret, info: string)
    | RootOf(root: Key, dh: Agreement)
    | ChainOf(root: Key, dh: Agreement)
    | NextChain(chain: Key)
    | MessageKey(chain: Key)
  {
    /** How many KDF_RK steps lie below this key's root. */
    function Depth(): nat {
      match this
      case InitialRoot(_, _, _) => 0
      case RootOf(root, _) => 1 + root.Depth()
      case ChainOf(root, _) => root.Depth()
      case NextChain(chain) => chain.Depth()
      case MessageKey(chain) => chain.Depth()
    }

    /** How many KDF_CK steps lie between this key and the start of its chain. */
    function Links(): nat {
      match this
      case NextChain(chain) => 1 + chain.Links()
      case MessageKey(chain) => chain.Links()
      case _ => 0
    }
  }

  function Agree(secret: Secret, peer: PublicKey): Agreement {
    if secret <= peer.secret then Agreement(secret, peer.secret) else Agreement(peer.secret, secret)
  }

  function Decapsulate(ciphertext: KemCiphertext, secret: Secret): KemSecret {
    if ciphertext.recipient == secret then Encapsulated(secret, ciphertext.seed)
    else ImplicitReject(secret, ciphertext)
  }

  /** Lexicographic order on user ids, as the default array sort compares them. */
  predicate AtMost(a: string, b: string) {
    a == [] || (b != [] && (a[0] < b[0] || (a[0] == b[0] && AtMost(a[1..], b[1..]))))
  }

  const ROOT_KEY_INFO_PREFIX := "epistl/v1/pqxdh/root/"

  /** Domain separation of the initial root key: both user ids, sorted. */
  function RootKeyInfo(contact: string, self: string): string {
    var (lower, higher) := if AtMost(contact, self) then (contact, self) else (self, contact);
    ROOT_KEY_INFO_PREFIX + lower + "/" + higher
  }

  lemma {:induction false} AtMostIsTotalAndAntisymmetric(a: string, b: string)
    ensures AtMost(a, b) || AtMost(b, a)
    ensures AtMost(a, b) && AtMost(b, a) ==> a == b
  {
    if a != [] && b != [] && a[0] == b[0] {
      AtMostIsTotalAndAntisymmetric(a[1..], b[1..]);
      assert a == [a[0]] + a[1..] && b == [b[0]] + b[1..];
    }
  }

  /** Neither party needs to know who initiated in order to derive the same info string. */
  lemma RootKeyInfoIsSymmetric(a: string, b: string)
    ensures RootKeyInfo(a, b) == RootKeyInfo(b, a)
  {
    AtMostIsTotalAndAntisymmetric(a, b);
  }

  /** a is a prefix of b, or has the smaller character where they first differ. */
  ghost predicate Precedes(a: string, b: string) {
    a <= b || exists k :: 0 <= k < |a| && k < |b| && a[..k] == b[..k] && a[k] < b[k]
  }

  lemma {:induction false} AtMostIff(a: string, b: string)
    ensures AtMost(a, b) <==> Precedes(a, b)
  {
    if a != [] && b != [] && a[0] == b[0] {
      AtMostIff(a[1..], b[1..]);
      assert a == [a[0]] + a[1..] && b == [b[0]] + b[1..];
      if k :| 0 <= k < |a[1..]| && k < |b[1..]| && a[1..][..k] == b[1..][..k] && a[1..][k] < b[1..][k] {
        assert a[..k + 1] == [a[0]] + a[1..][..k] && b[..k + 1] == [b[0]] + b[1..][..k];
        assert a[k + 1] < b[k + 1];
      }
      if k :| 0 <= k < |a| && k < |b| && a[..k] == b[..k] && a[k] < b[k] {
        assert a[..k][1..] == a[1..][..k - 1] && b[..k][1..] == b[1..][..k - 1];
        assert a[1..][k - 1] < b[1..][k - 1];
      }
    } else if a != [] && b != [] && a[0] < b[0] {
      assert a[..0] == b[..0];
    }
  }

  /** The info string both parties derive: the prefix, the smaller user id, a slash, the larger. */
  lemma RootKeyInfoIs(a: string, b: string)
    requires Precedes(a, b)
    ensures RootKeyInfo(a, b) == RootKeyInfo(b, a) == "epistl/v1/pqxdh/root/" + a + "/" + b
  {
    AtMostIff(a, b);
    RootKeyInfoIsSymmetric(a, b);
  }

  /** Different pairs of user ids get different info strings. Ids of one deployment have one length. */
  lemma RootKeyInfoNamesPair(a: string, b: string, c: string, d: string)
    requires |a| == |b| == |c| == |d| && RootKeyInfo(a, b) == RootKeyInfo(c, d)
    ensures (a == c && b == d) || (a == d && b == c)
  {
    var n, p := |a|, |ROOT_KEY_INFO_PREFIX|;
    assert forall x: string, y: string {:trigger ROOT_KEY_INFO_PREFIX + x + "/" + y} :: |x| == |y| == n ==>
        var info := ROOT_KEY_INFO_PREFIX + x + "/" + y;
        info[p..p + n] == x && info[p + n + 1..] == y;
  }
}
