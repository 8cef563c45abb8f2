/** Python's `str.strip()` with no argument, as applied to the completion
    text before it is sent (main.py:100). */
module Text {

  /** The characters Python's `str.isspace()` accepts, which is the set that
      `str.strip()` with no argument removes: the ASCII controls TAB, LF, VT,
      FF, CR and the four information separators 0x1C-0x1F, SPACE, and the
      Unicode space and line/paragraph separators. */
  predicate IsSpace(c: char) {
    c == ' ' || ('\t' <= c <= '\r') || ('\U{1C}' <= c <= '\U{1F}')
    || c == '\U{85}' || c == '\U{A0}' || c == '\U{1680}'
    || ('\U{2000}' <= c <= '\U{200A}')
    || c == '\U{2028}' || c == '\U{2029}' || c == '\U{202F}'
    || c == '\U{205F}' || c == '\U{3000}'
  }

  ghost predicate AllSpace(s: string) {
    forall k :: 0 <= k < |s| ==> IsSpace(s[k])
  }

  /** No whitespace at either end. */
  ghost predicate Trimmed(s: string) {
    s == [] || (!IsSpace(s[0]) && !IsSpace(s[|s| - 1]))
  }

  /** `str.lstrip()`: leading whitespace dropped; what remains starts with
      a non-space and ends where `s` ends. */
  function TrimLeft(s: string): (r: string)
    ensures |r| <= |s|
    ensures r == [] || !IsSpace(r[0])
    ensures r != [] ==> r[|r| - 1] == s[|s| - 1]
    decreases |s|
  {
    if s != [] && IsSpace(s[0]) then TrimLeft(s[1..]) else s
  }

  /** `str.rstrip()`: trailing whitespace dropped; what remains ends with
      a non-space and starts where `s` starts. */
  function TrimRight(s: string): (r: string)
    ensures |r| <= |s|
    ensures r == [] || !IsSpace(r[|r| - 1])
    ensures r != [] ==> r[0] == s[0]
    decreases |s|
  {
    if s != [] && IsSpace(s[|s| - 1]) then TrimRight(s[..|s| - 1]) else s
  }

  /** `str.strip()`: whitespace removed at both ends. */
  function Strip(s: string): (r: string)
    ensures Trimmed(r)
  {
    TrimRight(TrimLeft(s))
  }

  /** What TrimLeft drops is a whitespace prefix. */
  lemma {:induction false} TrimLeftDropsSpace(s: string)
    ensures s[|s| - |TrimLeft(s)|..] == TrimLeft(s)
    ensures AllSpace(s[..|s| - |TrimLeft(s)|])
    decreases |s|
  {
    if s != [] && IsSpace(s[0]) {
      var t := s[1..];
      TrimLeftDropsSpace(t);
      assert TrimLeft(s) == TrimLeft(t);
      var n := |s| - |TrimLeft(t)|;
      assert t[n - 1..] == s[n..];
      forall k | 0 <= k < n ensures IsSpace(s[k]) {
        if k > 0 {
          assert s[k] == t[..n - 1][k - 1];
        }
      }
    }
  }

  /** What TrimRight drops is a whitespace suffix. */
  lemma {:induction false} TrimRightDropsSpace(s: string)
    ensures s[..|TrimRight(s)|] == TrimRight(s)
    ensures AllSpace(s[|TrimRight(s)|..])
    decreases |s|
  {
    if s != [] && IsSpace(s[|s| - 1]) {
      TrimRightDropsSpace(s[..|s| - 1]);
      var n := |TrimRight(s)|;
      assert s[..|s| - 1][n..] == s[n..|s| - 1];
    }
  }

  /** What Strip removes is whitespace, and what it keeps is one contiguous
      piece of its input. */
  lemma StripKeepsCore(s: string)
    ensures exists i :: 0 <= i <= |s| - |Strip(s)| && Strip(s) == s[i..i + |Strip(s)|]
                        && AllSpace(s[..i]) && AllSpace(s[i + |Strip(s)|..])
  {
    var t := TrimLeft(s);
    var r := TrimRight(t);
    TrimLeftDropsSpace(s);
    TrimRightDropsSpace(t);
    var i := |s| - |t|;
    assert s[i..] == t;
    assert r == s[i..i + |r|] by {
      assert t[..|r|] == s[i..i + |r|];
    }
    assert AllSpace(s[i + |r|..]) by {
      assert s[i + |r|..] == t[|r|..];
    }
    assert AllSpace(s[..i]);
  }

  lemma {:induction false} TrimLeftSkips(p: string, t: string)
    requires AllSpace(p)
    requires t == [] || !IsSpace(t[0])
    ensures TrimLeft(p + t) == t
    decreases |p|
  {
    if p != [] {
      assert (p + t)[1..] == p[1..] + t;
      TrimLeftSkips(p[1..], t);
    } else {
      assert p + t == t;
    }
  }

  lemma {:induction false} TrimRightSkips(t: string, q: string)
    requires AllSpace(q)
    requires t == [] || !IsSpace(t[|t| - 1])
    ensures TrimRight(t + q) == t
    decreases |q|
  {
    if q != [] {
      assert (t + q)[..|t + q| - 1] == t + q[..|q| - 1];
      TrimRightSkips(t, q[..|q| - 1]);
    } else {
      assert t + q == t;
    }
  }

  /** Strip is determined by its characterisation: whatever whitespace
      surrounds a trimmed core, stripping yields exactly that core. */
  lemma StripUnique(p: string, m: string, q: string)
    requires AllSpace(p) && AllSpace(q) && Trimmed(m)
    ensures Strip(p + m + q) == m
  {
    if m == [] {
      assert p + m + q == (p + q) + [];
      assert AllSpace(p + q);
      TrimLeftSkips(p + q, []);
    } else {
      assert p + m + q == p + (m + q);
      TrimLeftSkips(p, m + q);
      TrimRightSkips(m, q);
    }
  }

  /** Stripping the reply text a second time changes nothing. */
  lemma StripIdempotent(s: string)
    ensures Strip(Strip(s)) == Strip(s)
  {
    var r := Strip(s);
    assert [] + r + [] == r;
    StripUnique([], r, []);
  }
}
