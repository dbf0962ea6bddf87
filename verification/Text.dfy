/** The few functions of Go's strings package that the engine relies on, over code points. */
module Text {
  import opened Wrappers

  /** unicode.IsSpace. */
  predicate IsSpace(c: char) {
    || c == ' ' || '\t' <= c <= '\r' || c == '\U{0085}' || c == '\U{00A0}' || c == '\U{1680}'
    || '\U{2000}' <= c <= '\U{200A}' || c == '\U{2028}' || c == '\U{2029}' || c == '\U{202F}'
    || c == '\U{205F}' || c == '\U{3000}'
  }

  /** The characters that Unicode counts as space. */
  const SPACES := " \t\n\U{000B}\U{000C}\r\U{0085}\U{00A0}\U{1680}"
    + "\U{2000}\U{2001}\U{2002}\U{2003}\U{2004}\U{2005}\U{2006}\U{2007}\U{2008}\U{2009}\U{200A}"
    + "\U{2028}\U{2029}\U{202F}\U{205F}\U{3000}"

  lemma SpaceIff(c: char)
    ensures IsSpace(c) <==> c in SPACES
  {
  }

  function TrimLeft(s: string): string {
    if s != "" && IsSpace(s[0]) then TrimLeft(s[1..]) else s
  }

  function TrimRight(s: string): string {
    if s != "" && IsSpace(s[|s| - 1]) then TrimRight(s[..|s| - 1]) else s
  }

  /** strings.TrimSpace. */
  function Trim(s: string): string {
    TrimRight(TrimLeft(s))
  }

  /** Lower case, exact on the letters that the words false and no are made of. */
  function Lower(s: string): string {
    seq(|s|, i requires 0 <= i < |s| => if 'A' <= s[i] <= 'Z' then s[i] - 'A' + 'a' else s[i])
  }

  predicate HasPrefix(s: string, p: string) {
    |p| <= |s| && s[..|p|] == p
  }

  predicate OccursAt(s: string, p: string, k: nat) {
    k + |p| <= |s| && s[k..k + |p|] == p
  }

  /** strings.Index. */
  function IndexOf(s: string, p: string): (r: Option<nat>)
    ensures r.Some? ==> r.value + |p| <= |s|
  {
    if HasPrefix(s, p) then Some(0)
    else if s == "" then None
    else
      var rest := IndexOf(s[1..], p);
      if rest.Some? then Some(rest.value + 1) else None
  }

  /** IndexOf finds the first occurrence, and fails only if there is none. */
  lemma {:induction false} IndexOfIsFirst(s: string, p: string)
    ensures IndexOf(s, p).Some? ==> OccursAt(s, p, IndexOf(s, p).value)
    ensures forall j: nat :: OccursAt(s, p, j) ==> IndexOf(s, p).Some? && IndexOf(s, p).value <= j
  {
    if HasPrefix(s, p) {
      assert OccursAt(s, p, 0);
    } else if s != "" {
      IndexOfIsFirst(s[1..], p);
      var rest := IndexOf(s[1..], p);
      if rest.Some? {
        OccursShift(s, p, rest.value + 1);
      }
      forall j: nat | OccursAt(s, p, j)
        ensures rest.Some? && rest.value + 1 <= j
      {
        OccursShift(s, p, j);
      }
    }
  }

  lemma OccursShift(s: string, p: string, j: nat)
    requires s != "" && j > 0
    ensures OccursAt(s, p, j) <==> OccursAt(s[1..], p, j - 1)
  {
    if j + |p| <= |s| {
      assert s[j..j + |p|] == s[1..][j - 1..j - 1 + |p|];
    }
  }

  lemma OccursFirst(s: string, p: string, j: nat)
    requires OccursAt(s, p, j) && p != ""
    ensures s[j] == p[0]
  {
    assert s[j..j + |p|][0] == s[j];
  }

  /** Neither end is a space. */
  ghost predicate Trimmed(s: string) {
    s != "" ==> !IsSpace(s[0]) && !IsSpace(s[|s| - 1])
  }

  lemma {:induction false} TrimLeftIsSuffix(s: string)
    ensures |TrimLeft(s)| <= |s| && TrimLeft(s) == s[|s| - |TrimLeft(s)|..]
    ensures TrimLeft(s) != "" ==> !IsSpace(TrimLeft(s)[0])
  {
    if s != "" && IsSpace(s[0]) {
      TrimLeftIsSuffix(s[1..]);
    }
  }

  lemma {:induction false} TrimRightIsPrefix(s: string)
    ensures |TrimRight(s)| <= |s| && TrimRight(s) == s[..|TrimRight(s)|]
    ensures TrimRight(s) != "" ==> !IsSpace(TrimRight(s)[|TrimRight(s)| - 1])
  {
    if s != "" && IsSpace(s[|s| - 1]) {
      TrimRightIsPrefix(s[..|s| - 1]);
    }
  }

  /** Trimming cuts a substring out whose ends are no spaces. */
  lemma TrimIsSubstring(s: string) returns (k: nat)
    ensures OccursAt(s, Trim(s), k) && Trimmed(Trim(s))
  {
    TrimLeftIsSuffix(s);
    TrimRightIsPrefix(TrimLeft(s));
    k := |s| - |TrimLeft(s)|;
    assert Trim(s) == s[k..][..|Trim(s)|];
  }

  lemma TrimHead(s: string) returns (k: nat)
    ensures Trim(s) != "" ==> k < |s| && s[k] == Trim(s)[0]
  {
    k := TrimIsSubstring(s);
    if Trim(s) != "" {
      OccursFirst(s, Trim(s), k);
    }
  }

  lemma TrimmedIsFixed(s: string)
    requires Trimmed(s)
    ensures Trim(s) == s
  {
  }

  lemma {:induction false} TrimLeftConcat(a: string, b: string)
    requires b != "" && !IsSpace(b[0])
    ensures TrimLeft(a + b) == TrimLeft(a) + b
  {
    if a == "" {
      assert a + b == b;
    } else if IsSpace(a[0]) {
      assert (a + b)[1..] == a[1..] + b;
      TrimLeftConcat(a[1..], b);
    }
  }

  lemma {:induction false} TrimRightConcat(b: string, c: string)
    requires b != "" && !IsSpace(b[|b| - 1])
    ensures TrimRight(b + c) == b + TrimRight(c)
  {
    if c == "" {
      assert b + c == b;
    } else if IsSpace(c[|c| - 1]) {
      assert (b + c)[..|b + c| - 1] == b + c[..|c| - 1];
      TrimRightConcat(b, c[..|c| - 1]);
    }
  }

  predicate AllSpace(s: string) {
    forall k :: 0 <= k < |s| ==> IsSpace(s[k])
  }

  lemma {:induction false} TrimLeftOfSpace(s: string)
    requires AllSpace(s)
    ensures TrimLeft(s) == ""
  {
    if s != "" {
      TrimLeftOfSpace(s[1..]);
    }
  }

  lemma {:induction false} TrimRightOfSpace(s: string)
    requires AllSpace(s)
    ensures TrimRight(s) == ""
    decreases |s|
  {
    if s != "" {
      TrimRightOfSpace(s[..|s| - 1]);
    }
  }

  lemma {:induction false} TrimLeftSplit(s: string) returns (a: string)
    ensures s == a + TrimLeft(s) && AllSpace(a)
  {
    a := "";
    if s != "" && IsSpace(s[0]) {
      a := TrimLeftSplit(s[1..]);
      a := [s[0]] + a;
    }
  }

  lemma {:induction false} TrimRightSplit(s: string) returns (b: string)
    ensures s == TrimRight(s) + b && AllSpace(b)
    decreases |s|
  {
    b := "";
    if s != "" && IsSpace(s[|s| - 1]) {
      b := TrimRightSplit(s[..|s| - 1]);
      b := b + [s[|s| - 1]];
    }
  }

  /** Trimming takes nothing but space away. */
  lemma TrimSplit(s: string) returns (a: string, b: string)
    ensures s == a + Trim(s) + b && AllSpace(a) && AllSpace(b) && Trimmed(Trim(s))
  {
    a := TrimLeftSplit(s);
    b := TrimRightSplit(TrimLeft(s));
    var k := TrimIsSubstring(s);
  }

  /** Trimming around a core that neither starts nor ends with a space leaves the core alone. */
  lemma TrimAround(a: string, b: string, c: string)
    requires b != "" && Trimmed(b)
    ensures Trim(a + b + c) == TrimLeft(a) + b + TrimRight(c)
  {
    assert a + b + c == a + (b + c);
    TrimLeftConcat(a, b + c);
    var left := TrimLeft(a) + b;
    assert TrimLeft(a) + (b + c) == left + c;
    TrimRightConcat(left, c);
  }

  /** Space around a text, or a text that is nothing else. */
  lemma TrimPadded(a: string, b: string, c: string)
    requires AllSpace(a) && AllSpace(c) && Trimmed(b)
    ensures Trim(a + b + c) == b
  {
    if b == "" {
      TrimLeftOfSpace(a + b + c);
    } else {
      TrimAround(a, b, c);
      TrimLeftOfSpace(a);
      TrimRightOfSpace(c);
      assert "" + b + "" == b;
    }
  }

  // ------------------------------------------------------------ lower case

  /** The word, which consists of small letters, in any mixture of cases. */
  predicate Spells(s: string, word: string) {
    |s| == |word| && forall k :: 0 <= k < |s| ==> s[k] == word[k] || s[k] as int + 32 == word[k] as int
  }

  lemma LowerSpells(s: string, word: string)
    requires forall k :: 0 <= k < |word| ==> 'a' <= word[k] <= 'z'
    ensures Lower(s) == word <==> Spells(s, word)
  {
    if Lower(s) == word {
      forall k | 0 <= k < |s|
        ensures s[k] == word[k] || s[k] as int + 32 == word[k] as int
      {
        assert Lower(s)[k] == word[k];
      }
    }
  }

  /** Changing the case moves no space. */
  lemma LowerTrimmed(s: string)
    ensures Trimmed(s) ==> Trimmed(Lower(s))
    ensures AllSpace(s) ==> AllSpace(Lower(s))
  {
  }

  lemma TrimOfLower(s: string)
    ensures Trim(Lower(s)) == Lower(Trim(s))
  {
    var a, b := TrimSplit(s);
    LowerTrimmed(a);
    LowerTrimmed(b);
    LowerTrimmed(Trim(s));
    assert Lower(s) == Lower(a) + Lower(Trim(s)) + Lower(b);
    TrimPadded(Lower(a), Lower(Trim(s)), Lower(b));
  }
}
