/** Login names are compared after lowering them: the commenter is lowered
    before any lookup (permission.go:25) and every owner entry is lowered
    before it is stored (permission.go:159, 187, 191). Lowering is modelled on
    ASCII letters only. */
module Identity {

  predicate IsUpperAscii(c: char) {
    'A' <= c <= 'Z'
  }

  /** strings.ToLower restricted to ASCII: 'A'..'Z' become 'a'..'z'. */
  function LowerChar(c: char): (d: char)
    ensures !IsUpperAscii(d)
    ensures IsUpperAscii(c) ==> d as int == c as int + 32
    ensures !IsUpperAscii(c) ==> d == c
  {
    if IsUpperAscii(c) then (c as int + 32) as char else c
  }

  /** No upper-case ASCII letter occurs in s. */
  predicate IsLower(s: string) {
    forall i :: 0 <= i < |s| ==> !IsUpperAscii(s[i])
  }

  /** The lowered form of a login, character by character. */
  function Lower(s: string): (r: string)
    ensures |r| == |s|
    ensures IsLower(r)
    ensures forall i :: 0 <= i < |s| ==> r[i] == LowerChar(s[i])
  {
    if s == [] then [] else [LowerChar(s[0])] + Lower(s[1..])
  }

  /** Lowering changes nothing in a string that is already lower-case, so
      lowering twice is lowering once. */
  lemma LowerFixesLower(s: string)
    requires IsLower(s)
    ensures Lower(s) == s
  {
  }

  lemma LowerIdempotent(s: string)
    ensures Lower(Lower(s)) == Lower(s)
  {
    LowerFixesLower(Lower(s));
  }

  /** Two characters that are the same letter, perhaps in different case. */
  predicate SameIgnoringCase(c: char, d: char) {
    || c == d
    || (IsUpperAscii(c) && d as int == c as int + 32)
    || (IsUpperAscii(d) && c as int == d as int + 32)
  }

  /** Case-insensitive equality of two logins, stated without lowering. */
  predicate EqualFold(a: string, b: string) {
    |a| == |b| && forall i :: 0 <= i < |a| ==> SameIgnoringCase(a[i], b[i])
  }

  lemma LowerCharAgree(c: char, d: char)
    ensures LowerChar(c) == LowerChar(d) <==> SameIgnoringCase(c, d)
  {
  }

  /** Comparing lowered forms is exactly case-insensitive comparison: an entry
      "AliceDev" and a commenter "ALICEDEV" meet as "alicedev". */
  lemma {:induction false} LowerEqualIffEqualFold(a: string, b: string)
    ensures Lower(a) == Lower(b) <==> EqualFold(a, b)
  {
    if Lower(a) == Lower(b) {
      forall i | 0 <= i < |a| ensures SameIgnoringCase(a[i], b[i]) {
        assert Lower(a)[i] == Lower(b)[i];
        LowerCharAgree(a[i], b[i]);
      }
    }
    if EqualFold(a, b) {
      forall i | 0 <= i < |a| ensures Lower(a)[i] == Lower(b)[i] {
        LowerCharAgree(a[i], b[i]);
      }
    }
  }

  /** The example of mixed-case matching, worked out: "AliceDev",
      "ALICEDEV" and "alicedev" are one login. */
  lemma MixedCaseLoginsMatch()
    ensures Lower("AliceDev") == Lower("alicedev") && Lower("ALICEDEV") == Lower("alicedev")
  {
    assert EqualFold("AliceDev", "alicedev");
    assert EqualFold("ALICEDEV", "alicedev");
    LowerEqualIffEqualFold("AliceDev", "alicedev");
    LowerEqualIffEqualFold("ALICEDEV", "alicedev");
  }
}
