/** MongoDB object identifiers as the handlers use them: a 12-byte value,
    written here as its 24 lower-case hexadecimal digits, with the all-zero
    identifier as a distinguished value, and the parse from a hexadecimal
    string (the driver's `ObjectIDFromHex`). Generating fresh identifiers is
    left to the caller, who passes them in. */
module ObjectIds {
  import opened Common

  const HexLength := 24

  predicate IsHexDigit(c: char) {
    '0' <= c <= '9' || 'a' <= c <= 'f' || 'A' <= c <= 'F'
  }

  predicate IsLowerHexDigit(c: char) {
    '0' <= c <= '9' || 'a' <= c <= 'f'
  }

  /** A string `ObjectIDFromHex` accepts: exactly 24 hex digits of either case. */
  predicate IsObjectIdHex(s: string) {
    |s| == HexLength && forall i :: 0 <= i < |s| ==> IsHexDigit(s[i])
  }

  /** The canonical spelling of an identifier: 24 lower-case hex digits. */
  predicate IsCanonicalHex(s: string) {
    |s| == HexLength && forall i :: 0 <= i < |s| ==> IsLowerHexDigit(s[i])
  }

  /** A 12-byte identifier, held as its canonical spelling, so that two
      identifiers are equal exactly when their bytes are. */
  type ObjectId = s: string | IsCanonicalHex(s) witness "000000000000000000000000"

  /** The zero identifier that `IsZero` recognises: twelve zero bytes. */
  const Zero: ObjectId := "000000000000000000000000"

  /** `ObjectID.IsZero` */
  predicate IsZero(id: ObjectId) {
    id == Zero
  }

  /** The value (0 to 15) of a hex digit of either case. */
  function HexValue(c: char): (v: int)
    requires IsHexDigit(c)
    ensures 0 <= v < 16
  {
    if '0' <= c <= '9' then c as int - '0' as int
    else if 'a' <= c <= 'f' then c as int - 'a' as int + 10
    else c as int - 'A' as int + 10
  }

  function LowerHexDigit(c: char): (d: char)
    requires IsHexDigit(c)
    ensures IsLowerHexDigit(d) && HexValue(d) == HexValue(c)
  {
    if 'A' <= c <= 'F' then (c as int - 'A' as int + 'a' as int) as char else c
  }

  /** Two lower-case digits with the same value are the same digit. */
  lemma LowerHexDigitUnique(c: char, d: char)
    requires IsLowerHexDigit(c) && IsLowerHexDigit(d) && HexValue(c) == HexValue(d)
    ensures c == d
  {
  }

  /** `ObjectIDFromHex`: `None` is the driver's error. A parsed identifier
      has, digit by digit, the values of the input. */
  function FromHex(s: string): (r: Option<ObjectId>)
    ensures r.Some? <==> IsObjectIdHex(s)
    ensures r.Some? ==> forall i :: 0 <= i < HexLength ==> HexValue(r.value[i]) == HexValue(s[i])
  {
    if IsObjectIdHex(s) then
      var id: ObjectId := seq(|s|, i requires 0 <= i < |s| => LowerHexDigit(s[i]));
      Some(id)
    else None
  }

  /** An identifier's own spelling parses back to that identifier. */
  lemma {:induction false} FromHexCanonical(id: ObjectId)
    ensures FromHex(id) == Some(id)
  {
    var r := FromHex(id).value;
    forall i | 0 <= i < HexLength ensures r[i] == id[i] {
      LowerHexDigitUnique(r[i], id[i]);
    }
    assert |r| == |id| == HexLength;
    assert r == id;
  }

  /** Parsing ignores the case of the letters: two accepted spellings give
      the same identifier exactly when their digits have the same values. */
  lemma {:induction false} FromHexSameIff(s: string, t: string)
    requires IsObjectIdHex(s) && IsObjectIdHex(t)
    ensures FromHex(s) == FromHex(t) <==> forall i :: 0 <= i < HexLength ==> HexValue(s[i]) == HexValue(t[i])
  {
    var a, b := FromHex(s).value, FromHex(t).value;
    if forall i :: 0 <= i < HexLength ==> HexValue(s[i]) == HexValue(t[i]) {
      forall i | 0 <= i < HexLength ensures a[i] == b[i] {
        LowerHexDigitUnique(a[i], b[i]);
      }
      assert |a| == |b| == HexLength;
      assert a == b;
    }
  }
}
