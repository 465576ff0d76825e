/** Lower-casing and substring search, as the request routers use them:
    every keyword test in the handlers is `keyword in request.lower()`. */
module Text {

  /** Lower-case mapping of one character, as far as it can matter for
      matching an ASCII keyword: the ASCII capitals, LATIN CAPITAL LETTER I
      WITH DOT ABOVE (which lower-cases to "i" followed by COMBINING DOT
      ABOVE) and KELVIN SIGN (which lower-cases to "k"). Every other
      character is kept; its lower-case form contains no ASCII letter, so
      keeping it cannot make an ASCII keyword appear or disappear. */
  function LowerChar(c: char): (r: seq<char>)
    ensures |r| >= 1
    ensures 'A' <= c <= 'Z' ==> r == [c - 'A' + 'a']
    ensures !('A' <= c <= 'Z') && c != '\U{0130}' && c != '\U{212A}' ==> r == [c]
  {
    if 'A' <= c <= 'Z' then [(c as int - 'A' as int + 'a' as int) as char]
    else if c == '\U{0130}' then ['i', '\U{0307}']
    else if c == '\U{212A}' then ['k']
    else [c]
  }

  /** `s.lower()` */
  function Lower(s: string): (r: string)
    ensures |r| >= |s|
    ensures forall k | 0 <= k < |r| :: !('A' <= r[k] <= 'Z')
    ensures |s| == 1 ==> r == LowerChar(s[0])
  {
    if s == [] then [] else LowerChar(s[0]) + Lower(s[1..])
  }

  /** On ASCII text, lower-casing keeps the length and turns each capital
      into its own small letter, leaving every other character alone. */
  lemma {:induction false} LowerAscii(s: string)
    requires forall k | 0 <= k < |s| :: s[k] as int < 128
    ensures |Lower(s)| == |s|
    ensures forall k | 0 <= k < |s| ::
              Lower(s)[k] == if 'A' <= s[k] <= 'Z' then (s[k] as int + 32) as char else s[k]
  {
    if s != [] {
      LowerAscii(s[1..]);
      assert Lower(s) == LowerChar(s[0]) + Lower(s[1..]);
      forall k | 0 <= k < |s|
        ensures Lower(s)[k] == if 'A' <= s[k] <= 'Z' then (s[k] as int + 32) as char else s[k]
      {
        if k > 0 {
          assert Lower(s)[k] == Lower(s[1..])[k - 1] && s[k] == s[1..][k - 1];
        }
      }
    }
  }

  /** Text with no character that lower-cases differently is its own
      lower-case form. */
  lemma {:induction false} LowerIdentity(s: string)
    requires forall k | 0 <= k < |s| :: !('A' <= s[k] <= 'Z') && s[k] != '\U{0130}' && s[k] != '\U{212A}'
    ensures Lower(s) == s
  {
    if s != [] {
      LowerIdentity(s[1..]);
    }
  }

  /** Lower-casing works character by character. */
  lemma {:induction false} LowerAppend(a: string, b: string)
    ensures Lower(a + b) == Lower(a) + Lower(b)
  {
    if a == [] {
      assert a + b == b;
    } else {
      assert (a + b)[1..] == a[1..] + b;
      LowerAppend(a[1..], b);
    }
  }

  predicate IsPrefix(w: string, s: string) {
    |w| <= |s| && s[..|w|] == w
  }

  /** `w in s` for Python strings: the empty string occurs in every string. */
  predicate Contains(s: string, w: string) {
    IsPrefix(w, s) || (s != [] && Contains(s[1..], w))
  }

  /** `w` occurs in `s` starting at index `i`. */
  predicate OccursAt(s: string, w: string, i: nat) {
    i + |w| <= |s| && s[i..i + |w|] == w
  }

  /** `w in s` holds exactly when `w` occurs at some position of `s`. */
  lemma {:induction false} ContainsAt(s: string, w: string)
    ensures Contains(s, w) <==> exists i: nat :: OccursAt(s, w, i)
  {
    if s == [] {
      if exists i: nat :: OccursAt(s, w, i) {
        var i: nat :| OccursAt(s, w, i);
        assert IsPrefix(w, s);
      }
      if Contains(s, w) {
        assert OccursAt(s, w, 0);
      }
    } else {
      ContainsAt(s[1..], w);
      if Contains(s[1..], w) {
        var i: nat :| OccursAt(s[1..], w, i);
        assert OccursAt(s, w, i + 1);
      }
      if IsPrefix(w, s) {
        assert OccursAt(s, w, 0);
      }
      if exists i: nat :: OccursAt(s, w, i) {
        var i: nat :| OccursAt(s, w, i);
        if i > 0 {
          assert OccursAt(s[1..], w, i - 1);
        }
      }
    }
  }

  /** A lower-case word inside a request is found in the request's
      lower-case form, whatever surrounds it. */
  lemma {:induction false} ContainsLowerWord(before: string, word: string, after: string)
    requires forall k | 0 <= k < |word| :: !('A' <= word[k] <= 'Z') && word[k] != '\U{0130}' && word[k] != '\U{212A}'
    ensures Contains(Lower(before + word + after), word)
  {
    LowerAppend(before + word, after);
    LowerAppend(before, word);
    LowerIdentity(word);
    var text := Lower(before) + word + Lower(after);
    assert Lower(before + word + after) == text;
    var i := |Lower(before)|;
    ContainsSlice(text, i, i + |word|);
    assert text[i..i + |word|] == word;
  }

  /** Whoever contains a word contains every piece of it. */
  lemma {:induction false} ContainsInfix(s: string, w: string, i: nat, j: nat)
    requires Contains(s, w)
    requires i <= j <= |w|
    ensures Contains(s, w[i..j])
  {
    if IsPrefix(w, s) {
      ContainsSlice(s, i, j);
      assert s[i..j] == w[i..j] by {
        assert s[..|w|] == w;
        forall k | 0 <= k < j - i
          ensures s[i..j][k] == w[i..j][k]
        {
          assert s[i..j][k] == s[..|w|][i + k] == w[i + k];
        }
      }
    } else {
      ContainsInfix(s[1..], w, i, j);
    }
  }

  /** Every slice of `s` occurs in `s`. */
  lemma {:induction false} ContainsSlice(s: string, i: nat, j: nat)
    requires i <= j <= |s|
    ensures Contains(s, s[i..j])
  {
    if i == 0 {
      assert IsPrefix(s[i..j], s);
    } else {
      var rest := s[1..];
      ContainsSlice(rest, i - 1, j - 1);
      assert rest[i - 1..j - 1] == s[i..j] by {
        assert |rest[i - 1..j - 1]| == j - i == |s[i..j]|;
        forall k | 0 <= k < j - i
          ensures rest[i - 1..j - 1][k] == s[i..j][k]
        {
          assert rest[i - 1..j - 1][k] == rest[i - 1 + k] == s[i + k];
        }
      }
      assert s != [] && Contains(rest, s[i..j]);
    }
  }
}
