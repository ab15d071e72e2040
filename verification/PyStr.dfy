/**
  * The Python `str` operations the two launchers rely on: `strip()`,
  * `lower()`, the substring test `q in s` and `replace(old, new)`.
  * Case mapping is restricted to ASCII (see README).
  */
module PyStr {

  /** The characters for which Python's `str.isspace()` holds; `strip()` with no argument removes exactly these. */
  predicate IsSpace(c: char) {
    c == ' ' || '\t' <= c <= '\r' || '\U{1C}' <= c <= '\U{1F}' || c == '\U{85}' || c == '\U{A0}' ||
    c == '\U{1680}' || '\U{2000}' <= c <= '\U{200A}' || c == '\U{2028}' || c == '\U{2029}' ||
    c == '\U{202F}' || c == '\U{205F}' || c == '\U{3000}'
  }

  /** A string with no whitespace at either end: a fixed point of `strip()`. */
  predicate IsStripped(s: string) {
    s == [] || (!IsSpace(s[0]) && !IsSpace(s[|s| - 1]))
  }

  /** `s.lstrip()`: the longest suffix of `s` that does not start with whitespace. */
  function TrimStart(s: string): (r: string)
    ensures |r| <= |s| && r == s[|s| - |r|..]
    ensures forall i :: 0 <= i < |s| - |r| ==> IsSpace(s[i])
    ensures r == [] || !IsSpace(r[0])
  {
    if |s| > 0 && IsSpace(s[0]) then TrimStart(s[1..]) else s
  }

  /** `s.rstrip()`: the longest prefix of `s` that does not end with whitespace. */
  function TrimEnd(s: string): (r: string)
    ensures |r| <= |s| && r == s[..|r|]
    ensures forall i :: |r| <= i < |s| ==> IsSpace(s[i])
    ensures r == [] || !IsSpace(r[|r| - 1])
  {
    if |s| > 0 && IsSpace(s[|s| - 1]) then TrimEnd(s[..|s| - 1]) else s
  }

  /** `s.strip()`: whitespace removed from both ends. */
  function Strip(s: string): (r: string)
    ensures IsStripped(r) && |r| <= |s|
  {
    TrimEnd(TrimStart(s))
  }

  /**
    * If `t` is what is left of `s` after leading whitespace, and `r` is what
    * is left of `t` after trailing whitespace, then `r` is the slice of `s`
    * between the two runs of whitespace.
    */
  lemma SliceBetweenSpaces(s: string, t: string, r: string)
    requires |t| <= |s| && t == s[|s| - |t|..]
    requires forall k :: 0 <= k < |s| - |t| ==> IsSpace(s[k])
    requires |r| <= |t| && r == t[..|r|]
    requires forall k :: |r| <= k < |t| ==> IsSpace(t[k])
    ensures var i := |s| - |t|;
      i + |r| <= |s| && (forall k :: 0 <= k < |r| ==> r[k] == s[i + k]) &&
      (forall k :: 0 <= k < i ==> IsSpace(s[k])) &&
      (forall k :: i + |r| <= k < |s| ==> IsSpace(s[k]))
  {
    var i := |s| - |t|;
    forall k | i + |r| <= k < |s| ensures IsSpace(s[k]) {
      assert s[k] == t[k - i];
    }
  }

  /** `strip()` returns the slice of `s` between its leading and its trailing whitespace. */
  lemma StripSlice(s: string)
    ensures var r, i := Strip(s), |s| - |TrimStart(s)|;
      i + |r| <= |s| && (forall k :: 0 <= k < |r| ==> r[k] == s[i + k]) &&
      (forall k :: 0 <= k < i ==> IsSpace(s[k])) &&
      (forall k :: i + |r| <= k < |s| ==> IsSpace(s[k]))
  {
    var t := TrimStart(s);
    SliceBetweenSpaces(s, t, Strip(s));
  }

  /**
    * `strip()` returns the slice of `s` between its leading and its trailing
    * whitespace, and it returns the empty string exactly when `s` is all
    * whitespace.
    */
  lemma StripExact(s: string)
    ensures var r, i := Strip(s), |s| - |TrimStart(s)|;
      i + |r| <= |s| && (forall k :: 0 <= k < |r| ==> r[k] == s[i + k]) &&
      (forall k :: 0 <= k < i ==> IsSpace(s[k])) &&
      (forall k :: i + |r| <= k < |s| ==> IsSpace(s[k]))
    ensures Strip(s) == [] <==> forall k :: 0 <= k < |s| ==> IsSpace(s[k])
  {
    StripSlice(s);
    var r, i := Strip(s), |s| - |TrimStart(s)|;
    if r != [] {
      assert s[i] == r[0];
    }
  }

  /** `strip()` leaves a stripped string as it is. */
  lemma StripStripped(s: string)
    requires IsStripped(s)
    ensures Strip(s) == s
  {
  }

  /** A line whose text is stripped loses exactly its terminating whitespace character. */
  lemma StripLine(text: string, c: char)
    requires IsStripped(text) && IsSpace(c)
    ensures Strip(text + [c]) == text
  {
    var line := text + [c];
    assert line[..|line| - 1] == text;
    if text != [] {
      assert TrimStart(line) == line;
      assert TrimEnd(line) == TrimEnd(text) == text;
    }
  }

  predicate IsUpper(c: char) { 'A' <= c <= 'Z' }

  predicate IsAsciiLower(c: char) { 'a' <= c <= 'z' }

  /** The character class `[a-zA-Z]`. */
  predicate IsAsciiLetter(c: char) { IsUpper(c) || IsAsciiLower(c) }

  /** `c.lower()` on ASCII: upper-case letters map to lower case, every other character is kept. */
  function LowerChar(c: char): char {
    if IsUpper(c) then (c as int + 32) as char else c
  }

  /** `s.lower()` with ASCII case mapping. */
  function Lower(s: string): (r: string)
    ensures |r| == |s|
    ensures forall i :: 0 <= i < |s| && !IsUpper(s[i]) ==> r[i] == s[i]
    ensures forall i :: 0 <= i < |s| && IsUpper(s[i]) ==> IsAsciiLower(r[i]) && r[i] as int == s[i] as int + 32
    ensures forall i :: 0 <= i < |r| ==> !IsUpper(r[i])
  {
    seq(|s|, i requires 0 <= i < |s| => LowerChar(s[i]))
  }

  /** A string without upper-case ASCII letters is its own lower-case form. */
  lemma LowerWithoutUpper(s: string)
    requires forall i :: 0 <= i < |s| ==> !IsUpper(s[i])
    ensures Lower(s) == s
  {
  }

  /** Lower-casing neither adds nor removes whitespace at the ends. */
  lemma LowerStripped(s: string)
    requires IsStripped(s)
    ensures IsStripped(Lower(s))
  {
    if s != [] {
      var r := Lower(s);
      assert r[0] == s[0] || IsAsciiLower(r[0]);
      assert r[|r| - 1] == s[|s| - 1] || IsAsciiLower(r[|r| - 1]);
    }
  }

  /** Lower-casing twice is lower-casing once. */
  lemma LowerIdempotent(s: string)
    ensures Lower(Lower(s)) == Lower(s)
  {
  }

  /** `q` occurs in `s` starting at position `i`. */
  predicate OccursAt(s: string, q: string, i: int) {
    0 <= i && i + |q| <= |s| && s[i..i + |q|] == q
  }

  /** `q` cannot occur at a position that does not hold its first character. */
  lemma NotOccursAtOtherHead(s: string, q: string, i: int)
    requires q != [] && 0 <= i < |s| && s[i] != q[0]
    ensures !OccursAt(s, q, i)
  {
    if i + |q| <= |s| {
      assert s[i..i + |q|][0] == s[i];
    }
  }

  /** Python's substring test `q in s`, scanning `s` from the left. */
  predicate Contains(s: string, q: string): (b: bool)
    ensures b ==> |q| <= |s|
    ensures q == [] ==> b
    decreases |s|
  {
    (|q| <= |s| && s[..|q|] == q) || (|s| > 0 && Contains(s[1..], q))
  }

  /** An occurrence of `q` at any position makes `q in s` true. */
  lemma {:induction false} OccursImpliesContains(s: string, q: string, i: int)
    requires OccursAt(s, q, i)
    ensures Contains(s, q)
    decreases i
  {
    if i == 0 {
      assert s[..|q|] == s[0..|q|];
    } else {
      assert s[1..][i - 1..i - 1 + |q|] == s[i..i + |q|];
      OccursImpliesContains(s[1..], q, i - 1);
    }
  }

  /** When `q in s` holds, `q` occurs at some position of `s`. */
  lemma {:induction false} ContainsImpliesOccurs(s: string, q: string)
    requires Contains(s, q)
    ensures exists i :: OccursAt(s, q, i)
    decreases |s|
  {
    if |q| <= |s| && s[..|q|] == q {
      assert OccursAt(s, q, 0);
    } else {
      ContainsImpliesOccurs(s[1..], q);
      var i :| OccursAt(s[1..], q, i);
      assert s[i + 1..i + 1 + |q|] == s[1..][i..i + |q|];
      assert OccursAt(s, q, i + 1);
    }
  }

  /** The scan agrees with the positional reading: `q in s` iff `q` occurs somewhere in `s`. */
  lemma ContainsIffOccurs(s: string, q: string)
    ensures Contains(s, q) <==> exists i :: OccursAt(s, q, i)
  {
    if Contains(s, q) {
      ContainsImpliesOccurs(s, q);
    }
    if exists i :: OccursAt(s, q, i) {
      var i :| OccursAt(s, q, i);
      OccursImpliesContains(s, q, i);
    }
  }

  /** A string that lacks some character of `q` does not contain `q`. */
  lemma {:induction false} NotContainsMissingChar(s: string, q: string, j: nat)
    requires j < |q| && q[j] !in s
    ensures !Contains(s, q)
    decreases |s|
  {
    if s != [] {
      NotContainsMissingChar(s[1..], q, j);
    }
  }

  /**
    * `s.replace(pat, rep)` for a non-empty `pat`: scanning from the left,
    * every non-overlapping occurrence of `pat` is replaced by `rep`, and the
    * inserted text is not scanned again.
    */
  function Replace(s: string, pat: string, rep: string): string
    requires pat != []
    decreases |s|
  {
    if s == [] then []
    else if |pat| <= |s| && s[..|pat|] == pat then rep + Replace(s[|pat|..], pat, rep)
    else [s[0]] + Replace(s[1..], pat, rep)
  }

  /** A string in which `pat` does not occur is left unchanged. */
  lemma {:induction false} ReplaceWithoutOccurrence(s: string, pat: string, rep: string)
    requires pat != []
    requires !Contains(s, pat)
    ensures Replace(s, pat, rep) == s
    decreases |s|
  {
    if s != [] {
      ReplaceWithoutOccurrence(s[1..], pat, rep);
    }
  }

  /**
    * A prefix in which no occurrence of `pat` starts is copied unchanged, and
    * the scan resumes after it exactly as it would on the rest alone.
    */
  lemma {:induction false} ReplaceSkipsPrefix(pre: string, t: string, pat: string, rep: string)
    requires pat != []
    requires forall i :: 0 <= i < |pre| ==> !OccursAt(pre + t, pat, i)
    ensures Replace(pre + t, pat, rep) == pre + Replace(t, pat, rep)
    decreases |pre|
  {
    if pre != [] {
      var s, rest := pre + t, pre[1..] + t;
      assert s[1..] == rest;
      assert !OccursAt(s, pat, 0);
      forall i | 0 <= i < |pre[1..]|
        ensures !OccursAt(rest, pat, i)
      {
        assert !OccursAt(s, pat, i + 1);
        if i + |pat| <= |rest| {
          assert rest[i..i + |pat|] == s[i + 1..i + 1 + |pat|];
        }
      }
      ReplaceSkipsPrefix(pre[1..], t, pat, rep);
      calc {
        Replace(s, pat, rep);
        [s[0]] + Replace(rest, pat, rep);
        [pre[0]] + (pre[1..] + Replace(t, pat, rep));
        { assert pre == [pre[0]] + pre[1..]; }
        pre + Replace(t, pat, rep);
      }
    } else {
      assert pre + t == t;
    }
  }

  /** Text that lacks the first character of `pat` is copied unchanged by `replace`. */
  lemma {:induction false} ReplaceWithoutLead(s: string, pat: string, rep: string)
    requires pat != [] && pat[0] !in s
    ensures Replace(s, pat, rep) == s
    decreases |s|
  {
    if s != [] {
      ReplaceWithoutLead(s[1..], pat, rep);
    }
  }
}
