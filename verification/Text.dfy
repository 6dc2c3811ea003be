/** White space as the standard string functions see it. */
module Text {

  /** unicode.IsSpace. */
  predicate Space(c: char) {
    || '\t' <= c <= '\r' || c == ' ' || c == '\U{85}' || c == '\U{a0}' || c == '\U{1680}'
        || '\U{2000}' <= c <= '\U{200a}'
    || c == '\U{2028}' || c == '\U{2029}' || c == '\U{202f}' || c == '\U{205f}' || c == '\U{3000}'
  }

  function TrimSpace(s: string): string {
    if s == "" then s
    else if Space(s[0]) then TrimSpace(s[1..])
    else if Space(s[|s| - 1]) then TrimSpace(s[..|s| - 1])
    else s
  }

  /** t is what is left of s between positions i and j: only spaces outside, none at its own ends. */
  ghost predicate TrimmedAt(s: string, t: string, i: nat, j: nat) {
    && i <= j <= |s| && t == s[i..j]
    && (forall k :: 0 <= k < i ==> Space(s[k]))
    && (forall k :: j <= k < |s| ==> Space(s[k]))
    && (t == "" || (!Space(t[0]) && !Space(t[|t| - 1])))
  }

  ghost predicate Trimmed(s: string, t: string) {
    exists i: nat, j: nat :: TrimmedAt(s, t, i, j)
  }

  /** Theorem: trimming removes exactly the surrounding white space. */
  lemma TrimSpaceExact(s: string, t: string)
    ensures Trimmed(s, t) <==> t == TrimSpace(s)
  {
    var i, j := TrimSpaceAt(s);
    if Trimmed(s, t) {
      var k: nat, l: nat :| TrimmedAt(s, t, k, l);
      TrimmedUnique(s, t, k, l, TrimSpace(s), i, j);
    }
  }

  lemma {:induction false} TrimSpaceAt(s: string) returns (i: nat, j: nat)
    ensures TrimmedAt(s, TrimSpace(s), i, j)
  {
    i, j := 0, |s|;
    if s != "" && Space(s[0]) {
      i, j := TrimSpaceAt(s[1..]);
      i, j := i + 1, j + 1;
    } else if s != "" && Space(s[|s| - 1]) {
      i, j := TrimSpaceAt(s[..|s| - 1]);
    }
  }

  lemma TrimmedUnique(s: string, t: string, i: nat, j: nat, u: string, k: nat, l: nat)
    requires TrimmedAt(s, t, i, j) && TrimmedAt(s, u, k, l)
    ensures t == u
  {
    if t != "" {
      assert t[0] == s[i] && t[|t| - 1] == s[j - 1];
      assert k <= i && j <= l;
    }
    if u != "" {
      assert u[0] == s[k] && u[|u| - 1] == s[l - 1];
      assert i <= k && l <= j;
    }
  }
}
