/**
 * Python's `str.split()` with no separator: the maximal runs of non-whitespace characters,
 * in order. Used by the `invitation_only` status test.
 */
module Tokens {

  /** The characters Python's `str.isspace()` accepts, which is what `str.split()` splits on. */
  predicate IsSpace(c: char) {
    || c == ' ' || c == '\t' || c == '\n' || c == '\r'
    || c == '\U{0B}' || c == '\U{0C}'
    || ('\U{1C}' <= c <= '\U{1F}')
    || c == '\U{85}' || c == '\U{A0}' || c == '\U{1680}'
    || ('\U{2000}' <= c <= '\U{200A}')
    || c == '\U{2028}' || c == '\U{2029}' || c == '\U{202F}' || c == '\U{205F}' || c == '\U{3000}'
  }

  predicate NoSpace(w: string) {
    forall k :: 0 <= k < |w| ==> !IsSpace(w[k])
  }

  /** The length of the run of non-whitespace characters that `s` starts with. */
  function LeadingWordLength(s: string): (n: nat)
    ensures n <= |s|
    ensures forall k :: 0 <= k < n ==> !IsSpace(s[k])
    ensures n < |s| ==> IsSpace(s[n])
  {
    if s == [] || IsSpace(s[0]) then 0 else 1 + LeadingWordLength(s[1..])
  }

  /** `s.split()`. */
  function Split(s: string): (tokens: seq<string>)
    ensures forall t :: t in tokens ==> t != [] && NoSpace(t)
    decreases |s|
  {
    if s == [] then []
    else if IsSpace(s[0]) then Split(s[1..])
    else
      var n := LeadingWordLength(s);
      [s[..n]] + Split(s[n..])
  }

  /** `w` occurs in `s` at index `i` with whitespace or an end of `s` on both sides. */
  ghost predicate StandsAlone(s: string, w: string, i: int) {
    && 0 <= i && i + |w| <= |s|
    && s[i..i + |w|] == w
    && (i == 0 || IsSpace(s[i - 1]))
    && (i + |w| == |s| || IsSpace(s[i + |w|]))
  }

  /** Past a leading space, a word standing alone in `s` stands alone in `s[1..]`, one place earlier. */
  lemma SpaceHeadDrop(s: string, w: string, i: int)
    requires s != [] && IsSpace(s[0])
    requires w != [] && NoSpace(w)
    requires StandsAlone(s, w, i)
    ensures 0 < i && StandsAlone(s[1..], w, i - 1)
  {
    assert s[i..i + |w|][0] == s[i];
    assert s[1..][i - 1..i - 1 + |w|] == s[i..i + |w|];
  }

  /** Conversely, a word standing alone in `s[1..]` stands alone in `s`, one place later. */
  lemma SpaceHeadAdd(s: string, w: string, j: int)
    requires s != [] && IsSpace(s[0])
    requires StandsAlone(s[1..], w, j)
    ensures StandsAlone(s, w, j + 1)
  {
    assert s[j + 1..j + 1 + |w|] == s[1..][j..j + |w|];
  }

  /** In a string that starts with a word, the only token standing alone at index 0 is that word. */
  lemma LeadingWordStandsAlone(s: string, w: string)
    requires s != [] && !IsSpace(s[0])
    requires w != [] && NoSpace(w)
    ensures StandsAlone(s, w, 0) <==> w == s[..LeadingWordLength(s)]
  {
    var n := LeadingWordLength(s);
    if StandsAlone(s, w, 0) {
      assert forall k :: 0 <= k < |w| ==> s[..|w|][k] == s[k];
      assert |w| == n;
    }
    if w == s[..n] {
      assert s[0..0 + |w|] == s[..n];
    }
  }

  /** Past the leading word, a word standing alone in `s` stands alone in what follows it. */
  lemma LaterWordDrop(s: string, w: string, i: int)
    requires s != [] && !IsSpace(s[0])
    requires w != [] && NoSpace(w)
    requires 0 < i && StandsAlone(s, w, i)
    ensures var n := LeadingWordLength(s); n < i && StandsAlone(s[n..], w, i - n)
  {
    var n := LeadingWordLength(s);
    assert IsSpace(s[i - 1]);
    assert n < i;
    assert s[n..][i - n..i - n + |w|] == s[i..i + |w|];
  }

  /**
   * Conversely, a word standing alone in what follows a leading word of length `n` (a run
   * ended by whitespace or by the end of `s`) stands alone in `s`.
   */
  lemma LaterWordAdd(s: string, w: string, n: nat, j: int)
    requires 0 < n <= |s| && (n < |s| ==> IsSpace(s[n]))
    requires w != [] && !IsSpace(w[0])
    requires StandsAlone(s[n..], w, j)
    ensures StandsAlone(s, w, n + j)
  {
    var rest := s[n..];
    assert rest[j..j + |w|][0] == rest[j];
    assert 0 < j;
    assert s[n + j..n + j + |w|] == rest[j..j + |w|];
    assert s[n + j - 1] == rest[j - 1];
  }

  /**
   * A non-empty word without whitespace is one of the tokens of `s` exactly when it stands
   * alone somewhere in `s`.
   */
  lemma {:induction false} InSplitIff(s: string, w: string)
    requires w != [] && NoSpace(w)
    ensures w in Split(s) <==> exists i :: StandsAlone(s, w, i)
    decreases |s|
  {
    if s == [] {
    } else if IsSpace(s[0]) {
      InSplitIff(s[1..], w);
      if i :| StandsAlone(s, w, i) {
        SpaceHeadDrop(s, w, i);
      }
      if j :| StandsAlone(s[1..], w, j) {
        SpaceHeadAdd(s, w, j);
      }
    } else {
      var n := LeadingWordLength(s);
      assert Split(s) == [s[..n]] + Split(s[n..]);
      InSplitIff(s[n..], w);
      LeadingWordStandsAlone(s, w);
      if i :| StandsAlone(s, w, i) {
        if 0 < i {
          LaterWordDrop(s, w, i);
        }
      }
      if j :| StandsAlone(s[n..], w, j) {
        LaterWordAdd(s, w, n, j);
      }
    }
  }

  /** A non-empty word without whitespace splits into itself alone. */
  lemma WordSplitsToItself(w: string)
    requires w != [] && NoSpace(w)
    ensures Split(w) == [w]
  {
    var n := LeadingWordLength(w);
    assert n == |w|;
    assert w[..n] == w && w[n..] == [];
  }
}
