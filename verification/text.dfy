/** The two string operations the turn loop relies on: lower-casing a
    transcript and testing whether one string occurs inside another. */
module Text {

  /** The capital letters the case mapping knows: ASCII A-Z, the Latin-1
      capitals from U+00C0 to U+00DE except the multiplication sign, and the
      Turkish capitals G-breve and S-cedilla. */
  predicate IsUpper(c: char) {
    || ('A' <= c <= 'Z')
    || ('\U{00C0}' <= c <= '\U{00DE}' && c != '\U{00D7}')
    || c == '\U{011E}' || c == '\U{015E}'
  }

  /** The lower-case partner of a capital; any other character is kept. */
  function LowerChar(c: char): (d: char)
    ensures !IsUpper(d)
    ensures !IsUpper(c) ==> d == c
    ensures IsUpper(c) ==> d != c
  {
    if !IsUpper(c) then c
    else if c == '\U{011E}' || c == '\U{015E}' then (c as int + 1) as char
    else (c as int + 32) as char
  }

  /** Lower-cases a string character by character. */
  function Lower(s: string): (r: string)
    ensures |r| == |s|
    ensures forall i :: 0 <= i < |s| ==> r[i] == LowerChar(s[i])
  {
    if s == [] then [] else [LowerChar(s[0])] + Lower(s[1..])
  }

  predicate IsLowerCase(s: string) {
    forall i :: 0 <= i < |s| ==> !IsUpper(s[i])
  }

  /** Lower-casing leaves no capital behind, and doing it twice changes
      nothing further. */
  lemma LowerNormalises(s: string)
    ensures IsLowerCase(Lower(s))
    ensures Lower(Lower(s)) == Lower(s)
  {
  }

  /** A lower-case string is its own lower-case form. */
  lemma {:induction false} LowerFixesLowerCase(s: string)
    requires IsLowerCase(s)
    ensures Lower(s) == s
  {
    if s != [] {
      LowerFixesLowerCase(s[1..]);
      assert s == [s[0]] + s[1..];
    }
  }

  /** `w` sits in `s` starting at position `i`. */
  predicate MatchesAt(w: string, s: string, i: int) {
    0 <= i && i + |w| <= |s| && s[i..i + |w|] == w
  }

  /** The declarative meaning of substring membership. */
  ghost predicate IsSubstring(w: string, s: string) {
    exists i :: MatchesAt(w, s, i)
  }

  /** Substring membership as a left-to-right scan: `w` is a prefix of `s`,
      or it occurs in the rest of `s`. The empty string occurs everywhere. */
  function Occurs(w: string, s: string): (r: bool)
    ensures w == [] ==> r
    ensures r ==> |w| <= |s|
    decreases |s|
  {
    if |w| <= |s| && s[..|w|] == w then true
    else if s == [] then false
    else Occurs(w, s[1..])
  }

  /** The scan finds `w` exactly when `w` sits somewhere in `s`. */
  lemma {:induction false} OccursIff(w: string, s: string)
    ensures Occurs(w, s) <==> IsSubstring(w, s)
    decreases |s|
  {
    if |w| <= |s| && s[..|w|] == w {
      assert MatchesAt(w, s, 0);
    } else if s == [] {
    } else {
      OccursIff(w, s[1..]);
      if IsSubstring(w, s) {
        var i :| MatchesAt(w, s, i);
        assert i != 0;
        assert s[1..][i - 1..i - 1 + |w|] == s[i..i + |w|];
        assert MatchesAt(w, s[1..], i - 1);
      }
      if IsSubstring(w, s[1..]) {
        var i :| MatchesAt(w, s[1..], i);
        assert s[1..][i..i + |w|] == s[i + 1..i + 1 + |w|];
        assert MatchesAt(w, s, i + 1);
      }
    }
  }

  /** Whether any of `phrases` occurs in `s`, scanning the list in order. */
  function ContainsAny(s: string, phrases: seq<string>): (r: bool)
    ensures r <==> exists i :: 0 <= i < |phrases| && Occurs(phrases[i], s)
  {
    if phrases == [] then false
    else Occurs(phrases[0], s) || ContainsAny(s, phrases[1..])
  }

  /** The scan succeeds exactly when some phrase of the list occurs in `s`. */
  lemma {:induction false} ContainsAnyIff(s: string, phrases: seq<string>)
    ensures ContainsAny(s, phrases) <==> exists w :: w in phrases && IsSubstring(w, s)
  {
    if phrases != [] {
      ContainsAnyIff(s, phrases[1..]);
      OccursIff(phrases[0], s);
      assert forall w :: w in phrases <==> w == phrases[0] || w in phrases[1..];
    }
  }

  /** The result does not depend on the order, or repetition, of the phrases. */
  lemma ContainsAnyOrderIndependent(s: string, ps: seq<string>, qs: seq<string>)
    requires forall w :: w in ps <==> w in qs
    ensures ContainsAny(s, ps) == ContainsAny(s, qs)
  {
    ContainsAnyIff(s, ps);
    ContainsAnyIff(s, qs);
  }
}
