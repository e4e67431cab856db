/** The string searches that the Go code uses, on sequences of characters. */
module Text {

  /** strings.Index: where `part` first occurs, or -1. */
  function Index(s: string, part: string): (r: int)
    ensures -1 <= r
    ensures r >= 0 ==> r + |part| <= |s| && s[r..r + |part|] == part
  {
    if part <= s then 0
    else if s == [] then -1
    else
      var r := Index(s[1..], part);
      if r < 0 then -1 else r + 1
  }

  /** strings.Contains */
  predicate Contains(s: string, part: string) {
    Index(s, part) >= 0
  }

  /** Nothing is found before the reported place. */
  lemma {:induction false} IndexIsFirst(s: string, part: string, k: nat)
    requires k + |part| <= |s| && s[k..k + |part|] == part
    ensures 0 <= Index(s, part) <= k
  {
    if k == 0 {
      assert part == s[..|part|];
    } else if !(part <= s) {
      assert s[1..][k - 1..k - 1 + |part|] == s[k..k + |part|];
      IndexIsFirst(s[1..], part, k - 1);
    }
  }

  predicate StandsAt(s: string, part: string, i: nat) {
    i + |part| <= |s| && s[i..i + |part|] == part
  }

  predicate Occurs(s: string, part: string) {
    exists i: nat :: i <= |s| && StandsAt(s, part, i)
  }

  /** Something is found exactly if it is there. */
  lemma ContainsMeans(s: string, part: string)
    ensures Contains(s, part) <==> Occurs(s, part)
  {
    if i: nat :| i <= |s| && StandsAt(s, part, i) {
      IndexIsFirst(s, part, i);
    }
    if Contains(s, part) {
      assert StandsAt(s, part, Index(s, part));
    }
  }

  ghost predicate FirstAt(s: string, part: string, i: nat) {
    StandsAt(s, part, i) && forall k: nat :: k < i ==> !StandsAt(s, part, k)
  }

  /** The first place, if there is one. */
  lemma IndexMeans(s: string, part: string)
    ensures Index(s, part) == -1 <==> !Occurs(s, part)
    ensures forall i: nat :: FirstAt(s, part, i) <==> Index(s, part) == i
  {
    ContainsMeans(s, part);
    var r := Index(s, part);
    assert r >= 0 ==> StandsAt(s, part, r);
    forall i: nat | StandsAt(s, part, i)
      ensures 0 <= r <= i
    {
      IndexIsFirst(s, part, i);
    }
  }
}
