/**
 * Document identifiers, and the cast of a request string to one.
 *
 * A stored identifier is an ObjectId; the model writes it in the form its
 * `toString` gives: 24 lower-case hexadecimal digits. The routes take ids
 * as strings from the URL or the body, check them with `isValid`, and let
 * Mongoose cast them to ObjectIds when they query or store them.
 */
module Ids {
  import opened Wrappers
  import opened Text

  /** A document identifier, written as text. */
  type Id = string

  /**
   * `mongoose.Types.ObjectId.isValid` on a string: 24 hexadecimal digits, or
   * any string of length 12.
   */
  predicate IsValidObjectId(s: string) {
    IsHexId(s) || |s| == 12
  }

  /** 24 hexadecimal digits of either case. */
  predicate IsHexId(s: string) {
    |s| == 24 && forall i :: 0 <= i < 24 ==> IsHexDigit(s[i])
  }

  predicate IsLowerHexDigit(c: char) { IsDigit(c) || 'a' <= c <= 'f' }

  /** The form in which an ObjectId is stored and printed. */
  predicate IsStoredId(s: string) {
    |s| == 24 && forall i :: 0 <= i < 24 ==> IsLowerHexDigit(s[i])
  }

  /** Every character code is below `bound`: 128 makes each one UTF-8 byte, 256 each one Latin-1 byte. */
  predicate CodesBelow(s: string, bound: int) {
    forall i :: 0 <= i < |s| ==> s[i] as int < bound
  }

  /** The lower-case hexadecimal digit of `n`. */
  function HexChar(n: nat): (c: char)
    requires n < 16
    ensures IsLowerHexDigit(c)
  {
    if n < 10 then (n + 48) as char else (n + 87) as char
  }

  /** The hexadecimal text of the bytes a string's character codes give, two digits per byte. */
  function HexOfCodes(s: string): (r: string)
    requires CodesBelow(s, 256)
    ensures |r| == 2 * |s|
    ensures forall i :: 0 <= i < |r| ==> IsLowerHexDigit(r[i])
  {
    if s == [] then []
    else [HexChar(s[0] as int / 16), HexChar(s[0] as int % 16)] + HexOfCodes(s[1..])
  }

  /**
   * The cast of a request string to an ObjectId, in its stored form.
   * 24 hexadecimal digits are read in either case. A 12-character string is
   * read as the twelve bytes of its UTF-8 encoding, which succeeds only when
   * every character is ASCII. Anything else makes the cast throw: `None`.
   */
  function CastId(s: string): (r: Option<Id>)
    ensures r.Some? ==> IsValidObjectId(s) && IsStoredId(r.value)
  {
    if IsHexId(s) then Some(ToLower(s))
    else if |s| == 12 && CodesBelow(s, 128) then Some(HexOfCodes(s))
    else None
  }

  /**
   * The stored id that `ObjectId.prototype.equals(s)` accepts for a string
   * `s`: 24 hexadecimal digits are compared without regard to case, and a
   * 12-character string is compared with the twelve bytes read as Latin-1.
   * `None` when `equals` holds for no stored id.
   */
  function EqualsKey(s: string): (r: Option<Id>)
    ensures CastId(s).Some? ==> r == CastId(s)
    ensures r.Some? ==> IsValidObjectId(s) && IsStoredId(r.value)
  {
    if IsHexId(s) then Some(ToLower(s))
    else if |s| == 12 && CodesBelow(s, 256) then Some(HexOfCodes(s))
    else None
  }

  /** A stored id casts to itself. */
  lemma CastOfStoredId(c: Id)
    requires IsStoredId(c)
    ensures CastId(c) == Some(c)
  {
    assert IsHexId(c);
    assert ToLower(c) == c;
  }

  /** Hexadecimal ids that differ only in the case of their letters name the same document. */
  lemma CastIgnoresCase(s: string, t: string)
    requires IsHexId(s) && |t| == 24 && ToLower(s) == ToLower(t)
    ensures CastId(s) == CastId(t) && CastId(t).Some?
  {
    forall i | 0 <= i < 24
      ensures IsHexDigit(t[i])
    {
      assert ToLower(t)[i] == LowerChar(t[i]) && ToLower(s)[i] == LowerChar(s[i]);
    }
  }

  /** A valid id fails to cast exactly when it has 12 characters and one of them is not ASCII. */
  lemma CastFailsOnlyBeyondAscii(s: string)
    requires IsValidObjectId(s)
    ensures CastId(s).None? <==> |s| == 12 && exists i :: 0 <= i < 12 && s[i] as int >= 128
  {
  }

  lemma HexCharInjective(m: nat, n: nat)
    requires m < 16 && n < 16 && HexChar(m) == HexChar(n)
    ensures m == n
  {
  }

  /** Distinct strings of bytes have distinct hexadecimal texts. */
  lemma {:induction false} HexOfCodesInjective(s: string, t: string)
    requires CodesBelow(s, 256) && CodesBelow(t, 256) && HexOfCodes(s) == HexOfCodes(t)
    ensures s == t
    decreases |s|
  {
    if s != [] {
      assert |t| == |s|;
      var a, b := s[0] as int, t[0] as int;
      var hs, ht := HexOfCodes(s), HexOfCodes(t);
      assert hs[0] == HexChar(a / 16) && ht[0] == HexChar(b / 16);
      assert hs[1] == HexChar(a % 16) && ht[1] == HexChar(b % 16);
      HexCharInjective(a / 16, b / 16);
      HexCharInjective(a % 16, b % 16);
      assert a == b;
      assert hs[2..] == HexOfCodes(s[1..]) && ht[2..] == HexOfCodes(t[1..]);
      HexOfCodesInjective(s[1..], t[1..]);
      assert s == [s[0]] + s[1..] && t == [t[0]] + t[1..];
    }
  }

  /**
   * Two request strings of the same length cast to the same document only
   * when they are equal, up to the case of the letters of a hexadecimal id.
   */
  lemma CastSameLength(s: string, t: string)
    requires |s| == |t| && CastId(s).Some? && CastId(s) == CastId(t)
    ensures s == t || (IsHexId(s) && IsHexId(t) && ToLower(s) == ToLower(t))
  {
    if |s| == 12 {
      HexOfCodesInjective(s, t);
    }
  }
}
