/** The password storage format of `app/core/security.py`: a stored password is
    `salt.hex() + ":" + digest.hex()`, where the digest is PBKDF2-HMAC-SHA256 of
    the password under that salt with a fixed iteration count. PBKDF2 itself
    and the random salt are parameters; what is modelled is the hex codec, the
    join and split at ':', and where each step raises. */
module Security {
  import opened Http
  import opened PyText

  type Byte = b: int | 0 <= b < 256

  /** The iteration count both `hash_password` and `verify_password` pass to PBKDF2. */
  const Pbkdf2Iterations: nat := 100000

  /** `hash_password` draws this many random bytes of salt. */
  const SaltLength: nat := 16

  /** `hashlib.pbkdf2_hmac("sha256", password.encode(), salt, iterations)`, left
      uninterpreted: any deterministic function of those three inputs. */
  type Pbkdf2 = (string, seq<Byte>, nat) -> seq<Byte>

  /** The two ways `verify_password` can raise instead of returning. */
  datatype PyError =
    | ValueError  // unpacking a split that is not two pieces, or `bytes.fromhex` on bad input
    | TypeError   // `hmac.compare_digest` given a non-ASCII string

  /** What a call of `verify_password` does: return a boolean or raise. */
  datatype Verdict = Returns(matches: bool) | Raises(error: PyError)

  // ---------------------------------------------------------------------
  // bytes.hex() and bytes.fromhex()
  // ---------------------------------------------------------------------

  const LowerHexDigits: string := "0123456789abcdef"

  predicate IsLowerHex(c: char)
  {
    ('0' <= c <= '9') || ('a' <= c <= 'f')
  }

  /** A hex digit as `bytes.fromhex` reads it: either case. */
  predicate IsHexDigit(c: char)
  {
    ('0' <= c <= '9') || ('a' <= c <= 'f') || ('A' <= c <= 'F')
  }

  function HexDigitValue(c: char): (v: nat)
    requires IsHexDigit(c)
    ensures v < 16
  {
    if '0' <= c <= '9' then c as int - '0' as int
    else if 'a' <= c <= 'f' then c as int - 'a' as int + 10
    else c as int - 'A' as int + 10
  }

  /** The ASCII whitespace `bytes.fromhex` skips between byte pairs. */
  predicate IsAsciiSpace(c: char)
  {
    c == ' ' || ('\t' <= c <= '\r')
  }

  predicate IsAscii(s: string)
  {
    forall i :: 0 <= i < |s| ==> s[i] as int < 128
  }

  function HexByte(b: Byte): (r: string)
    ensures |r| == 2 && IsLowerHex(r[0]) && IsLowerHex(r[1])
  {
    [LowerHexDigits[b / 16], LowerHexDigits[b % 16]]
  }

  /** `bytes.hex()`: two lower-case hex digits per byte, high nibble first. */
  function Hex(bs: seq<Byte>): (r: string)
    ensures |r| == 2 * |bs|
    ensures forall i :: 0 <= i < |r| ==> IsLowerHex(r[i])
  {
    if |bs| == 0 then "" else HexByte(bs[0]) + Hex(bs[1..])
  }

  /** `bytes.fromhex(s)`: before each pair of hex digits any ASCII whitespace
      is skipped; anything else that is not two hex digits raises (`None`). */
  function FromHex(s: string): (r: Option<seq<Byte>>)
    ensures r.Some? ==> 2 * |r.value| <= |s|
    ensures (forall i :: 0 <= i < |s| ==> IsAsciiSpace(s[i])) ==> r == Some([])
  {
    if |s| == 0 then Some([])
    else if IsAsciiSpace(s[0]) then FromHex(s[1..])
    else if |s| >= 2 && IsHexDigit(s[0]) && IsHexDigit(s[1]) then
      match FromHex(s[2..])
      case None => None
      case Some(rest) => Some([HexDigitValue(s[0]) * 16 + HexDigitValue(s[1])] + rest)
    else None
  }

  lemma HexDigitRoundTrip(d: nat)
    requires d < 16
    ensures IsHexDigit(LowerHexDigits[d]) && HexDigitValue(LowerHexDigits[d]) == d
  {
  }

  /** One byte's two hex digits decode back to that byte, ahead of whatever follows. */
  lemma FromHexPair(b: Byte, t: string, rest: seq<Byte>)
    requires FromHex(t) == Some(rest)
    ensures FromHex(HexByte(b) + t) == Some([b] + rest)
  {
    var s := HexByte(b) + t;
    HexDigitRoundTrip(b / 16);
    HexDigitRoundTrip(b % 16);
    assert s[0] == LowerHexDigits[b / 16] && s[1] == LowerHexDigits[b % 16];
    assert !IsAsciiSpace(s[0]);
    assert s[2..] == t;
    assert HexDigitValue(s[0]) == b / 16 && HexDigitValue(s[1]) == b % 16;
    assert (b / 16) * 16 + b % 16 == b;
  }

  /** `bytes.fromhex(b.hex()) == b`. */
  lemma {:induction false} FromHexOfHex(bs: seq<Byte>)
    ensures FromHex(Hex(bs)) == Some(bs)
  {
    if |bs| > 0 {
      FromHexOfHex(bs[1..]);
      FromHexPair(bs[0], Hex(bs[1..]), bs[1..]);
      assert [bs[0]] + bs[1..] == bs;
    }
  }

  /** `bytes.hex` loses nothing: different byte strings have different hex. */
  lemma HexInjective(a: seq<Byte>, b: seq<Byte>)
    requires Hex(a) == Hex(b)
    ensures a == b
  {
    FromHexOfHex(a);
    FromHexOfHex(b);
  }

  /** `bytes.fromhex` raises on any character that is neither a hex digit nor ASCII whitespace. */
  lemma {:induction false} FromHexRejectsStrayChar(s: string, k: nat)
    requires k < |s| && !IsHexDigit(s[k]) && !IsAsciiSpace(s[k])
    ensures FromHex(s) == None
  {
    if k > 0 {
      if IsAsciiSpace(s[0]) {
        FromHexRejectsStrayChar(s[1..], k - 1);
      } else if |s| >= 2 && IsHexDigit(s[0]) && IsHexDigit(s[1]) {
        if k >= 2 {
          FromHexRejectsStrayChar(s[2..], k - 2);
        }
      }
    }
  }

  /** `bytes.fromhex` raises on an odd number of hex digits with nothing between them. */
  lemma {:induction false} FromHexRejectsOddLength(s: string)
    requires forall i :: 0 <= i < |s| ==> IsHexDigit(s[i])
    requires |s| % 2 == 1
    ensures FromHex(s) == None
  {
    if |s| >= 3 {
      FromHexRejectsOddLength(s[2..]);
    }
  }

  /** A hex digit is never the separator of the stored format. */
  lemma HexHasNoColon(bs: seq<Byte>)
    ensures ':' !in Hex(bs)
  {
  }

  // ---------------------------------------------------------------------
  // hash_password and verify_password
  // ---------------------------------------------------------------------

  /** `hash_password(password)` with the salt `os.urandom(16)` passed in: the stored
      string is the salt's hex, one ':', then the digest's hex, and it splits back
      into exactly those two pieces. */
  function HashPassword(password: string, salt: seq<Byte>, prf: Pbkdf2): (stored: string)
    requires |salt| == SaltLength
    ensures |stored| == 2 * SaltLength + 1 + 2 * |prf(password, salt, Pbkdf2Iterations)|
    ensures stored[..2 * SaltLength] == Hex(salt)
    ensures stored[2 * SaltLength] == ':'
    ensures forall i :: 0 <= i < 2 * SaltLength ==> IsLowerHex(stored[i])
    ensures Split(stored, ':') == [Hex(salt), Hex(prf(password, salt, Pbkdf2Iterations))]
  {
    var digestHex := Hex(prf(password, salt, Pbkdf2Iterations));
    HexHasNoColon(salt);
    HexHasNoColon(prf(password, salt, Pbkdf2Iterations));
    SplitAfterPiece(Hex(salt), ':', digestHex);
    SplitNoSeparator(digestHex, ':');
    Hex(salt) + [':'] + digestHex
  }

  /** `verify_password(password, stored)`: split at ':' (raising unless there are
      exactly two pieces), decode the salt's hex (raising on bad hex), recompute
      the digest with the same iteration count and compare hex strings (raising
      when the stored digest part is not ASCII). */
  function VerifyPassword(password: string, stored: string, prf: Pbkdf2): (r: Verdict)
    ensures Count(stored, ':') != 1 ==> r == Raises(ValueError)
    ensures Count(stored, ':') == 1 && FromHex(Split(stored, ':')[0]).None? ==> r == Raises(ValueError)
    ensures (Count(stored, ':') == 1 && FromHex(Split(stored, ':')[0]).Some? && !IsAscii(Split(stored, ':')[1]))
              ==> r == Raises(TypeError)
    ensures r.Returns? <==> Count(stored, ':') == 1 && FromHex(Split(stored, ':')[0]).Some?
                            && IsAscii(Split(stored, ':')[1])
    ensures r.Returns? ==>
              r.matches == (Hex(prf(password, FromHex(Split(stored, ':')[0]).value, Pbkdf2Iterations))
                            == Split(stored, ':')[1])
  {
    var parts := Split(stored, ':');
    if |parts| != 2 then Raises(ValueError)
    else
      match FromHex(parts[0])
      case None => Raises(ValueError)
      case Some(salt) =>
        if !IsAscii(parts[1]) then Raises(TypeError)
        else Returns(Hex(prf(password, salt, Pbkdf2Iterations)) == parts[1])
  }

  /** A salt part holding a character that is neither a hex digit nor ASCII
      whitespace makes `verify_password` raise `ValueError`, whatever the password. */
  lemma VerifyRaisesOnStraySaltChar(password: string, stored: string, prf: Pbkdf2, k: nat)
    requires Count(stored, ':') == 1
    requires k < |Split(stored, ':')[0]|
    requires !IsHexDigit(Split(stored, ':')[0][k]) && !IsAsciiSpace(Split(stored, ':')[0][k])
    ensures VerifyPassword(password, stored, prf) == Raises(ValueError)
  {
    FromHexRejectsStrayChar(Split(stored, ':')[0], k);
  }

  /** A salt part made of an odd number of hex digits makes `verify_password` raise `ValueError`. */
  lemma VerifyRaisesOnOddSalt(password: string, stored: string, prf: Pbkdf2)
    requires Count(stored, ':') == 1
    requires forall i :: 0 <= i < |Split(stored, ':')[0]| ==> IsHexDigit(Split(stored, ':')[0][i])
    requires |Split(stored, ':')[0]| % 2 == 1
    ensures VerifyPassword(password, stored, prf) == Raises(ValueError)
  {
    FromHexRejectsOddLength(Split(stored, ':')[0]);
  }

  /** The round trip the two functions exist for: a password verifies against its
      own stored hash, whatever the salt and whatever deterministic PBKDF2. */
  lemma VerifyHashed(password: string, salt: seq<Byte>, prf: Pbkdf2)
    requires |salt| == SaltLength
    ensures VerifyPassword(password, HashPassword(password, salt, prf), prf) == Returns(true)
  {
    FromHexOfHex(salt);
  }

  /** A password whose digest under the stored salt differs is refused, not raised. */
  lemma VerifyOtherPassword(password: string, other: string, salt: seq<Byte>, prf: Pbkdf2)
    requires |salt| == SaltLength
    requires prf(other, salt, Pbkdf2Iterations) != prf(password, salt, Pbkdf2Iterations)
    ensures VerifyPassword(other, HashPassword(password, salt, prf), prf) == Returns(false)
  {
    FromHexOfHex(salt);
    if Hex(prf(other, salt, Pbkdf2Iterations)) == Hex(prf(password, salt, Pbkdf2Iterations)) {
      HexInjective(prf(other, salt, Pbkdf2Iterations), prf(password, salt, Pbkdf2Iterations));
    }
  }

  /** `verify_password` returns true exactly when the stored string is some salt's
      hex, ':', and the hex of the password's digest under that salt. */
  lemma VerifyTrueIff(password: string, stored: string, prf: Pbkdf2)
    ensures VerifyPassword(password, stored, prf) == Returns(true) <==>
              exists salt: seq<Byte> :: ':' !in Split(stored, ':')[0]
                  && FromHex(Split(stored, ':')[0]) == Some(salt)
                  && stored == Split(stored, ':')[0] + [':'] + Hex(prf(password, salt, Pbkdf2Iterations))
  {
    var parts := Split(stored, ':');
    JoinSplit(stored, ':');
    if VerifyPassword(password, stored, prf) == Returns(true) {
      assert Join(parts, ':') == parts[0] + [':'] + Join(parts[1..], ':');
      assert parts[1..] == [parts[1]];
    }
    if exists salt: seq<Byte> :: ':' !in parts[0] && FromHex(parts[0]) == Some(salt)
                  && stored == parts[0] + [':'] + Hex(prf(password, salt, Pbkdf2Iterations)) {
      var salt: seq<Byte> :| ':' !in parts[0] && FromHex(parts[0]) == Some(salt)
                  && stored == parts[0] + [':'] + Hex(prf(password, salt, Pbkdf2Iterations));
      var h := Hex(prf(password, salt, Pbkdf2Iterations));
      HexHasNoColon(prf(password, salt, Pbkdf2Iterations));
      SplitAfterPiece(parts[0], ':', h);
      SplitNoSeparator(h, ':');
      assert IsAscii(h);
    }
  }
}
