/** The IBAN shape check `^[A-Z]{2}\d{2}[A-Z0-9]{1,30}$`, shared by the account form and the
    account route. A pattern of this form is an anchored run of bounded repetitions of a
    character class; `Matches` gives such patterns the meaning a JavaScript regular expression
    without flags has (`\d` is the ASCII digits), and `IsIbanShape` is the same language spelled
    out position by position. Only the layout of ISO 13616 is checked: two country letters, two
    check digits and a 1 to 30 character BBAN. The mod 97-10 check-digit test of ISO/IEC 7064 is
    not performed. */
module Iban {

  datatype CharClass = UpperLetter | Digit | UpperOrDigit

  predicate IsUpper(ch: char) { 'A' <= ch <= 'Z' }

  predicate IsDigit(ch: char) { '0' <= ch <= '9' }

  predicate InClass(c: CharClass, ch: char)
  {
    match c
    case UpperLetter => IsUpper(ch)
    case Digit => IsDigit(ch)
    case UpperOrDigit => IsUpper(ch) || IsDigit(ch)
  }

  predicate AllIn(c: CharClass, s: string)
  {
    forall i | 0 <= i < |s| :: InClass(c, s[i])
  }

  /** `cls{min,max}`: between `min` and `max` characters of one class. */
  datatype Piece = Piece(cls: CharClass, min: nat, max: nat)

  /** `[A-Z]{2}`, `\d{2}`, `[A-Z0-9]{1,30}`, anchored at both ends. */
  const IbanPattern: seq<Piece> := [Piece(UpperLetter, 2, 2), Piece(Digit, 2, 2), Piece(UpperOrDigit, 1, 30)]

  /** The whole of `s` matches the pieces of `p` one after the other. */
  function Matches(p: seq<Piece>, s: string): bool
    decreases |p|, 1, 0
  {
    if p == [] then s == []
    else MatchesFrom(p, s, p[0].min)
  }

  /** Some count `c` with `k <= c <= p[0].max` takes `c` characters of the first piece's class
      and leaves a rest that matches the remaining pieces. */
  function MatchesFrom(p: seq<Piece>, s: string, k: nat): bool
    requires p != []
    decreases |p|, 0, p[0].max - k
  {
    if k > p[0].max || k > |s| then false
    else (AllIn(p[0].cls, s[..k]) && Matches(p[1..], s[k..])) || MatchesFrom(p, s, k + 1)
  }

  /** The IBAN shape, position by position. */
  predicate IsIbanShape(s: string)
  {
    && 5 <= |s| <= 34
    && IsUpper(s[0]) && IsUpper(s[1])
    && IsDigit(s[2]) && IsDigit(s[3])
    && forall i | 4 <= i < |s| :: IsUpper(s[i]) || IsDigit(s[i])
  }

  /** A piece of fixed count `n` takes exactly `n` characters. */
  lemma FixedPiece(c: CharClass, n: nat, rest: seq<Piece>, s: string)
    ensures Matches([Piece(c, n, n)] + rest, s) <==> n <= |s| && AllIn(c, s[..n]) && Matches(rest, s[n..])
  {
    var p := [Piece(c, n, n)] + rest;
    assert p[1..] == rest;
    assert !MatchesFrom(p, s, n + 1);
  }

  /** A last piece takes everything that is left: between `k` and `max` characters of its class. */
  lemma {:induction false} LastPiece(c: CharClass, lo: nat, hi: nat, s: string, k: nat)
    ensures MatchesFrom([Piece(c, lo, hi)], s, k) <==> k <= |s| <= hi && AllIn(c, s)
    decreases hi - k
  {
    var p := [Piece(c, lo, hi)];
    assert p[1..] == [];
    if k <= hi && k <= |s| {
      assert s[..|s|] == s;
      if k < |s| {
        LastPiece(c, lo, hi, s, k + 1);
      }
    }
  }

  /** The pattern accepts exactly the strings of IBAN shape. */
  lemma PatternMeansShape(s: string)
    ensures Matches(IbanPattern, s) <==> IsIbanShape(s)
  {
    var tail := [Piece(UpperOrDigit, 1, 30)];
    assert IbanPattern == [Piece(UpperLetter, 2, 2)] + ([Piece(Digit, 2, 2)] + tail);
    FixedPiece(UpperLetter, 2, [Piece(Digit, 2, 2)] + tail, s);
    if 2 <= |s| {
      var s2 := s[2..];
      FixedPiece(Digit, 2, tail, s2);
      if 2 <= |s2| {
        var s4 := s2[2..];
        assert s4 == s[4..];
        LastPiece(UpperOrDigit, 1, 30, s4, 1);
        if AllIn(UpperOrDigit, s4) {
          assert forall i | 4 <= i < |s| :: IsUpper(s[i]) || IsDigit(s[i]) by {
            forall i | 4 <= i < |s| ensures IsUpper(s[i]) || IsDigit(s[i]) {
              assert s[i] == s4[i - 4];
            }
          }
        }
        if IsIbanShape(s) {
          assert AllIn(UpperOrDigit, s4) by {
            forall i | 0 <= i < |s4| ensures InClass(UpperOrDigit, s4[i]) {
              assert s4[i] == s[i + 4];
            }
          }
          assert AllIn(UpperLetter, s[..2]) by {
            assert s[..2][0] == s[0] && s[..2][1] == s[1];
          }
          assert AllIn(Digit, s2[..2]) by {
            assert s2[..2][0] == s[2] && s2[..2][1] == s[3];
          }
        }
        assert AllIn(UpperLetter, s[..2]) ==> IsUpper(s[0]) && IsUpper(s[1]) by {
          assert s[..2][0] == s[0] && s[..2][1] == s[1];
        }
        assert AllIn(Digit, s2[..2]) ==> IsDigit(s[2]) && IsDigit(s[3]) by {
          assert s2[..2][0] == s[2] && s2[..2][1] == s[3];
        }
      }
    }
  }

  /** Every accepted string is 5 to 34 characters long. */
  lemma AcceptedLength(s: string)
    requires Matches(IbanPattern, s)
    ensures 5 <= |s| <= 34
  {
    PatternMeansShape(s);
  }

  /** Every character of an accepted string is an ASCII capital letter or an ASCII digit, so a
      lower-case letter, a space or a punctuation mark anywhere means rejection. */
  lemma AcceptedAlphabet(s: string)
    requires Matches(IbanPattern, s)
    ensures forall i | 0 <= i < |s| :: IsUpper(s[i]) || IsDigit(s[i])
  {
    PatternMeansShape(s);
  }

  /** The check digits are not verified: any two digits may replace them. */
  lemma CheckDigitsNotVerified(s: string, d1: char, d2: char)
    requires Matches(IbanPattern, s)
    requires IsDigit(d1) && IsDigit(d2)
    ensures Matches(IbanPattern, s[..2] + [d1, d2] + s[4..])
  {
    PatternMeansShape(s);
    var t := s[..2] + [d1, d2] + s[4..];
    assert |t| == |s|;
    assert forall i | 0 <= i < |t| && i != 2 && i != 3 :: t[i] == s[i];
    PatternMeansShape(t);
  }
}
