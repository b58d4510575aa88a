/** `durable_adk_session_id`: the length-prefixed digest input and the shape of the session ID. */
module SessionIds {
  import opened Foundations
  import opened Identifiers

  type Byte = b: int | 0 <= b < 256

  /** Four big-endian bytes; `to_bytes` raises on anything longer. */
  function LengthPrefix(n: nat): (prefix: seq<Byte>)
    requires n < 0x1_0000_0000
    ensures |prefix| == 4
  {
    [n / 0x100_0000, n / 0x1_0000 % 256, n / 256 % 256, n % 256]
  }

  lemma LengthPrefixInjective(m: nat, n: nat)
    requires m < 0x1_0000_0000 && n < 0x1_0000_0000
    requires LengthPrefix(m) == LengthPrefix(n)
    ensures m == n
  {
    BigEndianValue(m);
    BigEndianValue(n);
    assert forall i | 0 <= i < 4 :: LengthPrefix(m)[i] == LengthPrefix(n)[i];
  }

  lemma BigEndianValue(n: nat)
    requires n < 0x1_0000_0000
    ensures n == LengthPrefix(n)[0] as int * 0x100_0000 + LengthPrefix(n)[1] as int * 0x1_0000
                 + LengthPrefix(n)[2] as int * 256 + LengthPrefix(n)[3] as int
  {
    assert n / 0x1_0000 == n / 256 / 256 && n / 0x100_0000 == n / 256 / 256 / 256;
  }

  predicate Encodable(parts: seq<seq<Byte>>) {
    forall i | 0 <= i < |parts| :: |parts[i]| < 0x1_0000_0000
  }

  /** Everything the digest is fed, in order. */
  function DigestInput(parts: seq<seq<Byte>>): seq<Byte>
    requires Encodable(parts)
  {
    if parts == [] then []
    else LengthPrefix(|parts[0]|) + parts[0] + DigestInput(parts[1..])
  }

  /** The digest input determines the list of parts. */
  lemma {:induction false} DigestInputInjective(a: seq<seq<Byte>>, b: seq<seq<Byte>>)
    requires Encodable(a) && Encodable(b) && DigestInput(a) == DigestInput(b)
    ensures a == b
  {
    var x, y := DigestInput(a), DigestInput(b);
    if a == [] || b == [] {
      assert a != [] ==> |x| >= 4;
      assert b != [] ==> |y| >= 4;
    } else {
      assert x[..4] == LengthPrefix(|a[0]|) && y[..4] == LengthPrefix(|b[0]|);
      LengthPrefixInjective(|a[0]|, |b[0]|);
      assert x[4..4 + |a[0]|] == a[0] && y[4..4 + |b[0]|] == b[0];
      assert x[4 + |a[0]|..] == DigestInput(a[1..]) && y[4 + |b[0]|..] == DigestInput(b[1..]);
      DigestInputInjective(a[1..], b[1..]);
      assert a == [a[0]] + a[1..] && b == [b[0]] + b[1..];
    }
  }

  lemma {:induction false} DigestInputSnoc(parts: seq<seq<Byte>>, part: seq<Byte>)
    requires Encodable(parts) && |part| < 0x1_0000_0000
    ensures Encodable(parts + [part])
    ensures DigestInput(parts + [part]) == DigestInput(parts) + LengthPrefix(|part|) + part
  {
    if parts == [] {
      assert [part][1..] == [];
      assert DigestInput([part]) == LengthPrefix(|part|) + part + [];
    } else {
      assert (parts + [part])[1..] == parts[1..] + [part];
      DigestInputSnoc(parts[1..], part);
    }
  }

  /** `^[a-z](?:[a-z0-9-]{0,20}[a-z0-9])?$` */
  predicate Namespace(s: string) {
    && 1 <= |s| <= 22 && Lower(s[0])
    && (|s| > 1 ==> LowerOrDigit(s[|s| - 1]))
    && forall i | 1 <= i < |s| - 1 :: LowerOrDigit(s[i]) || s[i] == '-'
  }

  predicate HexText(s: string) {
    |s| == 40 && forall i | 0 <= i < 40 :: Digit(s[i]) || 'a' <= s[i] <= 'f'
  }

  /** The parts are the UTF-8 encodings, in the order the caller gave them. */
  method DurableSessionId(namespace: string, parts: seq<seq<Byte>>, digest: seq<Byte> -> string)
    returns (result: Result<string, Error>)
    ensures result.Success? <==>
            Namespace(namespace) && parts != [] && (forall i | 0 <= i < |parts| :: parts[i] != []) && Encodable(parts)
    ensures result.Success? ==> result.value == namespace + "-" + digest(DigestInput(parts))
  {
    if !Namespace(namespace) {
      return Failure(ValidationFailed);
    }
    if parts == [] || exists i | 0 <= i < |parts| :: parts[i] == [] {
      return Failure(ValidationFailed);
    }
    var fed: seq<Byte> := [];
    for n := 0 to |parts|
      invariant Encodable(parts[..n]) && fed == DigestInput(parts[..n])
    {
      if |parts[n]| >= 0x1_0000_0000 {
        return Failure(UnsupportedOperation);
      }
      fed := fed + LengthPrefix(|parts[n]|);
      fed := fed + parts[n];
      DigestInputSnoc(parts[..n], parts[n]);
      assert parts[..n + 1] == parts[..n] + [parts[n]];
    }
    assert parts[..|parts|] == parts;
    result := Success(namespace + "-" + digest(fed));
  }

  /** A session ID fits the managed service, and, unless the two digest inputs collide, names one
      namespace and one list of parts. */
  lemma SessionIdIdentifies(n: string, a: seq<seq<Byte>>, m: string, b: seq<seq<Byte>>, digest: seq<Byte> -> string)
    requires Namespace(n) && Namespace(m) && Encodable(a) && Encodable(b)
    requires HexText(digest(DigestInput(a))) && HexText(digest(DigestInput(b)))
    requires digest(DigestInput(a)) == digest(DigestInput(b)) ==> DigestInput(a) == DigestInput(b)
    ensures var id := n + "-" + digest(DigestInput(a));
            |id| <= 63 && forall i | 0 <= i < |id| :: LowerOrDigit(id[i]) || id[i] == '-'
    ensures n + "-" + digest(DigestInput(a)) == m + "-" + digest(DigestInput(b)) ==> n == m && a == b
  {
    var s, t := n + "-" + digest(DigestInput(a)), m + "-" + digest(DigestInput(b));
    assert |s| == |n| + 41 && |t| == |m| + 41;
    if s == t {
      assert n == s[..|n|] && m == t[..|m|];
      assert digest(DigestInput(a)) == s[|n| + 1..] && digest(DigestInput(b)) == t[|m| + 1..];
      DigestInputInjective(a, b);
    }
  }
}
