/** The number of '/' separators in a changed file's name
    (strings.Count at permission.go:55). */
module Paths {

  /** strings.Count(s, "/"): the number of '/' characters in s. */
  function SlashCount(s: string): (n: nat)
    ensures n == multiset(s)['/']
    ensures n <= |s|
    ensures n == 0 <==> '/' !in s
  {
    if s == [] then 0
    else
      assert s == [s[0]] + s[1..];
      (if s[0] == '/' then 1 else 0) + SlashCount(s[1..])
  }

  /** The '/' count of a concatenation is the sum of the counts. */
  lemma {:induction false} SlashCountConcat(a: string, b: string)
    ensures SlashCount(a + b) == SlashCount(a) + SlashCount(b)
  {
    if a != [] {
      assert (a + b)[1..] == a[1..] + b;
      SlashCountConcat(a[1..], b);
    }
  }

  /** A file directly inside d has one '/' more than d. */
  lemma ChildSlashCount(d: string, name: string)
    requires '/' !in name
    ensures SlashCount(d + "/" + name) == SlashCount(d) + 1
  {
    SlashCountConcat(d, "/");
    SlashCountConcat(d + "/", name);
  }
}
