/** The Python 2 string primitives the processor relies on, on byte strings
    whose whitespace is the six ASCII whitespace characters: `split()` with no
    separator, `strip()` with no argument and `find(c)`. `Join`, which the
    processor never calls, is a proof aid for building messages and remarks
    from tokens in the lemmas. */
module Tokens {

  /** `isspace()` for a byte string: space, tab, newline, vertical tab,
      form feed and carriage return. */
  predicate IsSpace(c: char) {
    c == ' ' || c == '\t' || c == '\n' || c == '\r' || c == '\U{000B}' || c == '\U{000C}'
  }

  predicate NoSpace(w: string) {
    forall i :: 0 <= i < |w| ==> !IsSpace(w[i])
  }

  predicate AllSpace(w: string) {
    forall i :: 0 <= i < |w| ==> IsSpace(w[i])
  }

  /** What `split()` can return as one element: non-empty, no whitespace. */
  predicate IsToken(w: string) {
    |w| > 0 && NoSpace(w)
  }

  /** `split()` with the pending, not yet closed token `cur`. */
  function SplitFrom(s: string, cur: string): (ts: seq<string>)
    requires NoSpace(cur)
    ensures forall k :: 0 <= k < |ts| ==> IsToken(ts[k])
    decreases |s|
  {
    if s == [] then
      if cur == [] then [] else [cur]
    else if IsSpace(s[0]) then
      if cur == [] then SplitFrom(s[1..], []) else [cur] + SplitFrom(s[1..], [])
    else
      SplitFrom(s[1..], cur + [s[0]])
  }

  /** `s.split()`: the maximal runs of non-whitespace characters, in order. */
  function Split(s: string): (ts: seq<string>)
    ensures forall k :: 0 <= k < |ts| ==> IsToken(ts[k])
  {
    SplitFrom(s, [])
  }

  /** `' '.join(ts)`. */
  function Join(ts: seq<string>): string {
    if ts == [] then ""
    else if |ts| == 1 then ts[0]
    else ts[0] + " " + Join(ts[1..])
  }

  lemma {:induction false} SplitFromEmptyIff(s: string, cur: string)
    requires NoSpace(cur)
    ensures SplitFrom(s, cur) == [] <==> cur == [] && AllSpace(s)
    decreases |s|
  {
    if s != [] {
      if IsSpace(s[0]) {
        SplitFromEmptyIff(s[1..], []);
        if cur == [] && AllSpace(s[1..]) {
          assert AllSpace(s) by {
            forall i | 0 <= i < |s| ensures IsSpace(s[i]) {
              if i > 0 { assert s[i] == s[1..][i - 1]; }
            }
          }
        }
      } else {
        SplitFromEmptyIff(s[1..], cur + [s[0]]);
      }
    }
  }

  /** `split()` returns no token, so `cmd[0]` fails, exactly on empty or
      whitespace-only text. */
  lemma SplitEmptyIffBlank(s: string)
    ensures Split(s) == [] <==> AllSpace(s)
  {
    SplitFromEmptyIff(s, []);
  }

  /** A run of non-whitespace characters extends the pending token. */
  lemma {:induction false} SplitFromWord(w: string, s: string, cur: string)
    requires NoSpace(cur) && NoSpace(w)
    ensures NoSpace(cur + w)
    ensures SplitFrom(w + s, cur) == SplitFrom(s, cur + w)
    decreases |w|
  {
    if w == [] {
      assert w + s == s;
      assert cur + w == cur;
    } else {
      assert (w + s)[0] == w[0];
      assert (w + s)[1..] == w[1..] + s;
      assert cur + w == (cur + [w[0]]) + w[1..];
      SplitFromWord(w[1..], s, cur + [w[0]]);
    }
  }

  /** Leading whitespace, of any kind and length, is dropped by `split()`. */
  lemma {:induction false} SplitSkipsSpace(w: string, s: string)
    requires AllSpace(w)
    ensures Split(w + s) == Split(s)
    decreases |w|
  {
    if w == [] {
      assert w + s == s;
    } else {
      assert (w + s)[0] == w[0];
      assert (w + s)[1..] == w[1..] + s;
      assert AllSpace(w[1..]) by {
        forall i | 0 <= i < |w[1..]| ensures IsSpace(w[1..][i]) {
          assert w[1..][i] == w[i + 1];
        }
      }
      assert Split(w + s) == Split(w[1..] + s);
      SplitSkipsSpace(w[1..], s);
    }
  }

  /** A token followed by the end of the string or by whitespace is the first
      element of `split()`, and the rest is split on its own. Together with
      `SplitSkipsSpace` this determines `split()` on every string. */
  lemma SplitToken(t: string, s: string)
    requires IsToken(t)
    requires s == [] || IsSpace(s[0])
    ensures Split(t + s) == [t] + Split(s)
  {
    SplitFromWord(t, s, []);
    assert [] + t == t;
    if s != [] {
      assert Split(s) == SplitFrom(s[1..], []);
    }
  }

  /** `split()` is a left inverse of `' '.join` on lists of tokens. */
  lemma {:induction false} SplitJoin(ts: seq<string>)
    requires forall k :: 0 <= k < |ts| ==> IsToken(ts[k])
    ensures Split(Join(ts)) == ts
    decreases |ts|
  {
    if ts == [] {
    } else if |ts| == 1 {
      SplitFromWord(ts[0], "", []);
      assert ts[0] + "" == ts[0];
      assert [] + ts[0] == ts[0];
    } else {
      var rest := Join(ts[1..]);
      SplitFromWord(ts[0], " " + rest, []);
      assert ts[0] + " " + rest == ts[0] + (" " + rest);
      assert [] + ts[0] == ts[0];
      assert (" " + rest)[1..] == rest;
      SplitJoin(ts[1..]);
      assert ts == [ts[0]] + ts[1..];
    }
  }

  /** Number of leading whitespace characters of `s`. */
  function LeadingSpace(s: string): (n: nat)
    ensures n <= |s|
    ensures AllSpace(s[..n])
    ensures n < |s| ==> !IsSpace(s[n])
  {
    if s == [] || !IsSpace(s[0]) then 0
    else
      var n := 1 + LeadingSpace(s[1..]);
      assert forall i :: 1 <= i < n ==> s[..n][i] == s[1..][..n - 1][i - 1];
      n
  }

  /** Number of trailing whitespace characters of `s`. */
  function TrailingSpace(s: string): (n: nat)
    ensures n <= |s|
    ensures AllSpace(s[|s| - n..])
    ensures n < |s| ==> !IsSpace(s[|s| - n - 1])
  {
    if s == [] || !IsSpace(s[|s| - 1]) then 0
    else
      var n := 1 + TrailingSpace(s[..|s| - 1]);
      n
  }

  /** `s.strip()`: `s` without its leading and trailing whitespace. */
  function Strip(s: string): (r: string)
    ensures r == [] || (!IsSpace(r[0]) && !IsSpace(r[|r| - 1]))
    ensures r == [] ==> AllSpace(s)
    ensures r != [] ==> exists i :: 0 <= i <= |s| - |r| && s[i..i + |r|] == r && AllSpace(s[..i]) && AllSpace(s[i + |r|..])
  {
    var i := LeadingSpace(s);
    if i == |s| then
      assert s[..i] == s;
      []
    else
      var t := TrailingSpace(s[i..]);
      assert s[i..][|s[i..]| - t..] == s[|s| - t..];
      s[i..|s| - t]
  }

  /** A string that does not start with whitespace keeps its first
      character under `strip()`. */
  lemma StripFirst(s: string)
    requires |s| > 0 && !IsSpace(s[0])
    ensures |Strip(s)| > 0 && Strip(s)[0] == s[0]
  {
    assert LeadingSpace(s) == 0;
    assert s[0..] == s;
    var t := TrailingSpace(s);
    assert t < |s| by {
      assert !AllSpace(s[0..]) by { assert !IsSpace(s[0..][0]); }
    }
  }

  /** `strip()` leaves a string that neither starts nor ends with
      whitespace as it is. */
  lemma StripTrimmed(s: string)
    requires |s| > 0 && !IsSpace(s[0]) && !IsSpace(s[|s| - 1])
    ensures Strip(s) == s
  {
    assert LeadingSpace(s) == 0;
    assert s[0..] == s;
    assert TrailingSpace(s) == 0;
  }

  /** `s.find(c)`: the index of the first `c` in `s`, or -1. */
  function IndexOf(s: string, c: char): (n: int)
    ensures -1 <= n < |s|
    ensures n == -1 <==> c !in s
    ensures n >= 0 ==> s[n] == c && c !in s[..n]
  {
    if s == [] then -1
    else if s[0] == c then 0
    else
      var m := IndexOf(s[1..], c);
      if m == -1 then -1
      else
        assert s[..m + 1] == [s[0]] + s[1..][..m];
        m + 1
  }
}
