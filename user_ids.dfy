/** Author identifiers on the server: the pattern `^[a-z0-9]{7}@itshivam\.in$`
    that `isValidUserID` enforces, and `generateUserID`, which draws seven
    characters from a 36-letter alphabet and appends the domain. The random
    draws are passed in as the indices `rand.Intn(36)` returned. */
module UserIds {

  /** `letterBytes`: the alphabet the generator draws from. */
  const LetterBytes := "abcdefghijklmnopqrstuvwxyz0123456789"
  /** The fixed suffix of every author identifier. */
  const Domain := "@itshivam.in"
  /** The number of generated (and accepted) characters before the domain. */
  const LocalLength := 7

  /** One single-character item of a regular expression: a bracketed class
      of character ranges, or a literal character. */
  datatype Atom = CharClass(ranges: seq<(char, char)>) | Literal(c: char)

  predicate AtomMatches(a: Atom, c: char) {
    match a
    case CharClass(rs) => exists i :: 0 <= i < |rs| && rs[i].0 <= c <= rs[i].1
    case Literal(l) => c == l
  }

  /** An anchored (`^…$`) sequence of atoms matches the whole of `s`. */
  predicate Matches(p: seq<Atom>, s: string) {
    if p == [] then s == []
    else s != [] && AtomMatches(p[0], s[0]) && Matches(p[1..], s[1..])
  }

  /** `a{n}` */
  function Repeat(a: Atom, n: nat): (p: seq<Atom>)
    ensures |p| == n && forall i :: 0 <= i < n ==> p[i] == a
  {
    seq(n, _ => a)
  }

  /** A literal string, one atom per character. */
  function Literals(s: string): (p: seq<Atom>)
    ensures |p| == |s| && forall i :: 0 <= i < |s| ==> p[i] == Literal(s[i])
  {
    seq(|s|, i requires 0 <= i < |s| => Literal(s[i]))
  }

  /** `[a-z0-9]` */
  const LowerAlnum := CharClass([('a', 'z'), ('0', '9')])

  /** `[a-z0-9]{7}@itshivam\.in` */
  function UserIdPattern(): seq<Atom> {
    Repeat(LowerAlnum, LocalLength) + Literals(Domain)
  }

  /** `isValidUserID`: the whole identifier matches the pattern. */
  predicate IsValidUserId(userId: string) {
    Matches(UserIdPattern(), userId)
  }

  predicate IsLowerAlnum(c: char) {
    'a' <= c <= 'z' || '0' <= c <= '9'
  }

  /** An anchored atom sequence matches exactly the strings of its length
      whose characters each match the atom at the same position. */
  lemma {:induction false} MatchesIff(p: seq<Atom>, s: string)
    ensures Matches(p, s) <==> |p| == |s| && forall i :: 0 <= i < |s| ==> AtomMatches(p[i], s[i])
  {
    if p != [] && s != [] {
      MatchesIff(p[1..], s[1..]);
      if |p| == |s| && forall i :: 0 <= i < |s| ==> AtomMatches(p[i], s[i]) {
        forall i | 0 <= i < |s[1..]| ensures AtomMatches(p[1..][i], s[1..][i]) {
          assert p[1..][i] == p[i + 1] && s[1..][i] == s[i + 1];
        }
      }
      if Matches(p, s) {
        forall i | 0 <= i < |s| ensures AtomMatches(p[i], s[i]) {
          if i > 0 {
            assert p[1..][i - 1] == p[i] && s[1..][i - 1] == s[i];
          }
        }
      }
    }
  }

  /** The pattern, stated without the matcher: nineteen characters, the first
      seven lower-case letters or digits, the rest exactly the domain. */
  lemma ValidUserIdIff(s: string)
    ensures IsValidUserId(s) <==>
      |s| == LocalLength + |Domain|
      && (forall i :: 0 <= i < LocalLength ==> IsLowerAlnum(s[i]))
      && s[LocalLength..] == Domain
  {
    var p := UserIdPattern();
    MatchesIff(p, s);
    assert |p| == LocalLength + |Domain|;
    forall i | 0 <= i < |p| && i < |s|
      ensures AtomMatches(p[i], s[i]) <==> if i < LocalLength then IsLowerAlnum(s[i]) else s[i] == Domain[i - LocalLength]
    {
      if i < LocalLength {
        assert p[i] == LowerAlnum;
        var rs := LowerAlnum.ranges;
        assert rs[0] == ('a', 'z') && rs[1] == ('0', '9');
        if IsLowerAlnum(s[i]) {
          if 'a' <= s[i] <= 'z' {
            assert rs[0].0 <= s[i] <= rs[0].1;
          } else {
            assert rs[1].0 <= s[i] <= rs[1].1;
          }
        }
      } else {
        assert p[i] == Literal(Domain[i - LocalLength]);
      }
    }
    if |s| == |p| {
      if s[LocalLength..] == Domain {
        forall i | LocalLength <= i < |s| ensures s[i] == Domain[i - LocalLength] {
          assert s[LocalLength..][i - LocalLength] == s[i];
        }
      }
      if forall i :: LocalLength <= i < |s| ==> s[i] == Domain[i - LocalLength] {
        assert s[LocalLength..] == Domain;
      }
    }
  }

  /** The indices `rand.Intn(len(letterBytes))` can return, one per character. */
  predicate ValidPicks(picks: seq<int>) {
    |picks| == LocalLength && forall i :: 0 <= i < LocalLength ==> 0 <= picks[i] < |LetterBytes|
  }

  /** The identifier `generateUserID` builds from the given draws. */
  function GeneratedUserId(picks: seq<int>): string
    requires ValidPicks(picks)
  {
    seq(LocalLength, i requires 0 <= i < LocalLength => LetterBytes[picks[i]]) + Domain
  }

  /** `generateUserID`: fill a seven-byte buffer from the alphabet, then append the domain. */
  method GenerateUserId(picks: seq<int>) returns (userId: string)
    requires ValidPicks(picks)
    ensures userId == GeneratedUserId(picks)
    ensures forall i :: 0 <= i < LocalLength ==> userId[i] in LetterBytes
    ensures IsValidUserId(userId)
  {
    var b := new char[LocalLength];
    for i := 0 to LocalLength
      invariant forall k :: 0 <= k < i ==> b[k] == LetterBytes[picks[k]]
    {
      b[i] := LetterBytes[picks[i]];
    }
    userId := b[..] + Domain;
    assert userId[..LocalLength] == b[..];
    GeneratedIsValid(picks);
  }

  /** The alphabet is exactly the lower-case letters followed by the digits. */
  function AlphabetChar(k: int): (c: char)
    requires 0 <= k < |LetterBytes|
    ensures IsLowerAlnum(c)
  {
    if k < 26 then ('a' as int + k) as char else ('0' as int + k - 26) as char
  }

  lemma LetterBytesIsAlphabet()
    ensures forall k :: 0 <= k < |LetterBytes| ==> LetterBytes[k] == AlphabetChar(k)
  {
    assert LetterBytes == seq(|LetterBytes|, k requires 0 <= k < |LetterBytes| => AlphabetChar(k));
  }

  /** The position of a letter or digit in the alphabet. */
  function LetterIndex(c: char): (k: int)
    requires IsLowerAlnum(c)
    ensures 0 <= k < |LetterBytes| && LetterBytes[k] == c
  {
    LetterBytesIsAlphabet();
    if 'a' <= c <= 'z' then c as int - 'a' as int else 26 + c as int - '0' as int
  }

  /** Every identifier the generator can produce passes validation. */
  lemma GeneratedIsValid(picks: seq<int>)
    requires ValidPicks(picks)
    ensures IsValidUserId(GeneratedUserId(picks))
  {
    var s := GeneratedUserId(picks);
    LetterBytesIsAlphabet();
    assert s[LocalLength..] == Domain;
    ValidUserIdIff(s);
  }

  /** Conversely, every valid identifier is one the generator can produce. */
  lemma ValidIsGenerated(s: string)
    requires IsValidUserId(s)
    ensures exists picks :: ValidPicks(picks) && GeneratedUserId(picks) == s
  {
    ValidUserIdIff(s);
    var picks := seq(LocalLength, i requires 0 <= i < LocalLength => LetterIndex(s[i]));
    assert ValidPicks(picks);
    var g := GeneratedUserId(picks);
    assert g[..LocalLength] == s[..LocalLength];
    assert g[LocalLength..] == s[LocalLength..];
    assert g == g[..LocalLength] + g[LocalLength..];
    assert s == s[..LocalLength] + s[LocalLength..];
  }

  /** The client writes `${sessionId}@itshivam.in`; the server accepts it exactly
      when the session token is seven lower-case letters or digits. */
  lemma SessionUserIdValidIff(sessionId: string)
    ensures IsValidUserId(sessionId + Domain) <==>
      |sessionId| == LocalLength && forall c :: c in sessionId ==> IsLowerAlnum(c)
  {
    var s := sessionId + Domain;
    ValidUserIdIff(s);
    if |sessionId| == LocalLength {
      assert s[LocalLength..] == Domain;
      assert forall i :: 0 <= i < LocalLength ==> s[i] == sessionId[i];
    }
  }
}
