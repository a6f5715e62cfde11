/** String tests used by the search endpoint. */
module Text {

  /** `q` occurs in `s` starting at index `i`. */
  ghost predicate OccursAt(s: string, q: string, i: int)
  {
    0 <= i && i + |q| <= |s| && s[i..i + |q|] == q
  }

  /** `title LIKE '%q%'` read as plain substring containment. */
  function Contains(s: string, q: string): (r: bool)
    decreases |s|
    ensures r <==> exists i :: OccursAt(s, q, i)
  {
    if |s| < |q| then
      assert forall i :: !OccursAt(s, q, i);
      false
    else if s[..|q|] == q then
      assert OccursAt(s, q, 0);
      true
    else
      var rest := Contains(s[1..], q);
      forall i ensures OccursAt(s[1..], q, i) <==> OccursAt(s, q, i + 1) {
        if 0 <= i && i + |q| <= |s| - 1 {
          assert s[1..][i..i + |q|] == s[i + 1..i + 1 + |q|];
        }
      }
      assert !OccursAt(s, q, 0);
      assert forall i :: OccursAt(s, q, i) && i != 0 ==> OccursAt(s[1..], q, i - 1);
      rest
  }

  /** The apostrophe guard of the search endpoint. */
  predicate HasApostrophe(q: string)
  {
    '\'' in q
  }
}
