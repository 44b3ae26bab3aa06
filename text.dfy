/** String operations of Python's `str` that the source relies on, restricted to
    what the model needs: ASCII case mapping, `isspace`, `strip`, `startswith`,
    `endswith`, the `in` substring test, `split(sep)`, `split()`, `join` and
    `replace(pat, "")`. */
module Text {

  /** Python's `str.isspace()` for a single character. */
  predicate IsSpace(c: char) {
    var n := c as int;
    (9 <= n <= 13) || (28 <= n <= 32) || n == 0x85 || n == 0xA0 || n == 0x1680
    || (0x2000 <= n <= 0x200A) || n == 0x2028 || n == 0x2029 || n == 0x202F
    || n == 0x205F || n == 0x3000
  }

  predicate IsAsciiUpper(c: char) {
    'A' <= c <= 'Z'
  }

  predicate IsAsciiLower(c: char) {
    'a' <= c <= 'z'
  }

  function LowerChar(c: char): (d: char)
    ensures !IsAsciiUpper(d)
    ensures IsSpace(d) == IsSpace(c)
  {
    if IsAsciiUpper(c) then (c as int + 32) as char else c
  }

  function UpperChar(c: char): (d: char)
    ensures !IsAsciiLower(d)
  {
    if IsAsciiLower(c) then (c as int - 32) as char else c
  }

  /** `s.lower()`, ASCII letters only. */
  function Lower(s: string): (r: string)
    ensures |r| == |s|
    ensures forall i :: 0 <= i < |s| ==> r[i] == LowerChar(s[i])
  {
    seq(|s|, i requires 0 <= i < |s| => LowerChar(s[i]))
  }

  /** `s.upper()`, ASCII letters only. */
  function Upper(s: string): (r: string)
    ensures |r| == |s|
    ensures forall i :: 0 <= i < |s| ==> r[i] == UpperChar(s[i])
  {
    seq(|s|, i requires 0 <= i < |s| => UpperChar(s[i]))
  }

  /** Upper-casing leaves a text without lower-case letters unchanged. */
  lemma UpperOfUpperCase(s: string)
    requires forall i :: 0 <= i < |s| ==> !IsAsciiLower(s[i])
    ensures Upper(s) == s
  {
  }

  lemma LowerIdempotent(s: string)
    ensures Lower(Lower(s)) == Lower(s)
  {
  }

  lemma LowerConcat(a: string, b: string)
    ensures Lower(a + b) == Lower(a) + Lower(b)
  {
  }

  /** `s.startswith(p)` */
  predicate StartsWith(s: string, p: string) {
    |p| <= |s| && s[..|p|] == p
  }

  /** `s.endswith(p)` */
  predicate EndsWith(s: string, p: string) {
    |p| <= |s| && s[|s| - |p|..] == p
  }

  lemma StartsWithChar(s: string, c: char)
    ensures StartsWith(s, [c]) <==> s != [] && s[0] == c
  {
  }

  lemma EndsWithChar(s: string, c: char)
    ensures EndsWith(s, [c]) <==> s != [] && s[|s| - 1] == c
  {
    if s != [] && s[|s| - 1] == c {
      assert s[|s| - 1..] == [c];
    }
  }

  predicate SubstringAt(s: string, sub: string, i: nat) {
    i + |sub| <= |s| && s[i..i + |sub|] == sub
  }

  /** Python's `sub in s`. */
  predicate Contains(s: string, sub: string) {
    exists i: nat :: i <= |s| && SubstringAt(s, sub, i)
  }

  lemma ContainsInRight(a: string, b: string, sub: string)
    requires Contains(b, sub)
    ensures Contains(a + b, sub)
  {
    var i: nat :| i <= |b| && SubstringAt(b, sub, i);
    assert (a + b)[|a| + i..|a| + i + |sub|] == b[i..i + |sub|];
    assert SubstringAt(a + b, sub, |a| + i);
  }

  lemma ContainsInLeft(a: string, b: string, sub: string)
    requires Contains(a, sub)
    ensures Contains(a + b, sub)
  {
    var i: nat :| i <= |a| && SubstringAt(a, sub, i);
    assert (a + b)[i..i + |sub|] == a[i..i + |sub|];
    assert SubstringAt(a + b, sub, i);
  }

  /** `[c] + x` contains `sub` only at 0 or inside `x`. */
  lemma NotContainsCons(c: char, x: string, sub: string)
    requires !Contains(x, sub) && !SubstringAt([c] + x, sub, 0)
    ensures !Contains([c] + x, sub)
  {
    forall i: nat | 0 < i <= |[c] + x|
      ensures !SubstringAt([c] + x, sub, i)
    {
      if i + |sub| <= |[c] + x| {
        assert ([c] + x)[i..i + |sub|] == x[i - 1..i - 1 + |sub|];
        assert !SubstringAt(x, sub, i - 1);
      }
    }
  }

  /** A text free of `sub` has a tail free of `sub`. */
  lemma NotContainsTail(c: char, x: string, sub: string)
    requires !Contains([c] + x, sub)
    ensures !Contains(x, sub)
  {
    forall i: nat | i <= |x|
      ensures !SubstringAt(x, sub, i)
    {
      if i + |sub| <= |x| {
        assert ([c] + x)[i + 1..i + 1 + |sub|] == x[i..i + |sub|];
        assert !SubstringAt([c] + x, sub, i + 1);
      }
    }
  }

  lemma LowerPreservesSpace(s: string, i: int)
    requires 0 <= i < |s|
    ensures IsSpace(Lower(s)[i]) == IsSpace(s[i])
  {
  }

  // ----- strip -----

  function TrimLeft(s: string): (r: string)
    ensures |r| <= |s|
    ensures r == [] || !IsSpace(r[0])
    ensures forall i :: 0 <= i < |s| - |r| ==> IsSpace(s[i])
  {
    if s != [] && IsSpace(s[0]) then TrimLeft(s[1..]) else s
  }

  function TrimRight(s: string): (r: string)
    ensures |r| <= |s|
    ensures r == [] || !IsSpace(r[|r| - 1])
    ensures forall i :: |r| <= i < |s| ==> IsSpace(s[i])
  {
    if s != [] && IsSpace(s[|s| - 1]) then TrimRight(s[..|s| - 1]) else s
  }

  /** The left-trimmed text is a suffix of the text. */
  lemma {:induction false} TrimLeftSuffix(s: string)
    ensures TrimLeft(s) == s[|s| - |TrimLeft(s)|..]
  {
    if s != [] && IsSpace(s[0]) {
      TrimLeftSuffix(s[1..]);
    }
  }

  /** The right-trimmed text is a prefix of the text. */
  lemma {:induction false} TrimRightPrefix(s: string)
    ensures TrimRight(s) == s[..|TrimRight(s)|]
  {
    if s != [] && IsSpace(s[|s| - 1]) {
      TrimRightPrefix(s[..|s| - 1]);
    }
  }

  /** `s.strip()`: whitespace removed at both ends. */
  function Strip(s: string): (r: string)
    ensures r == [] || (!IsSpace(r[0]) && !IsSpace(r[|r| - 1]))
  {
    var t := TrimLeft(s);
    TrimRightPrefix(t);
    assert TrimRight(t) != [] ==> TrimRight(t)[0] == t[0];
    TrimRight(t)
  }

  /** The stripped text is the infix of the text left between whitespace. */
  lemma StripIsInfix(s: string)
    ensures Contains(s, Strip(s))
    ensures forall i :: 0 <= i < |s| - |TrimLeft(s)| ==> IsSpace(s[i])
    ensures forall i :: |s| - |TrimLeft(s)| + |Strip(s)| <= i < |s| ==> IsSpace(s[i])
  {
    var t := TrimLeft(s);
    var r := TrimRight(t);
    TrimLeftSuffix(s);
    TrimRightPrefix(t);
    assert SubstringAt(s, r, |s| - |t|);
    forall i | |s| - |t| + |r| <= i < |s| ensures IsSpace(s[i]) {
      assert s[i] == t[i - (|s| - |t|)];
    }
  }

  // ----- split(sep) and join -----

  /** `s.split(sep)` for a one-character separator: always at least one part,
      and no part contains the separator. */
  function Split(s: string, sep: char): (parts: seq<string>)
    ensures |parts| >= 1
    ensures forall k :: 0 <= k < |parts| ==> sep !in parts[k]
  {
    if s == [] then [[]]
    else
      var rest := Split(s[1..], sep);
      if s[0] == sep then [[]] + rest else [[s[0]] + rest[0]] + rest[1..]
  }

  /** `sep.join(parts)` */
  function Join(parts: seq<string>, sep: string): string {
    if parts == [] then []
    else if |parts| == 1 then parts[0]
    else parts[0] + sep + Join(parts[1..], sep)
  }

  lemma JoinConsHead(x: string, y: string, tail: seq<string>, sep: string)
    ensures Join([x + y] + tail, sep) == x + Join([y] + tail, sep)
  {
    if tail != [] {
      assert ([x + y] + tail)[1..] == tail;
      assert ([y] + tail)[1..] == tail;
    }
  }

  /** Joining two non-empty runs of parts puts one separator between them. */
  lemma {:induction false} JoinAppend(a: seq<string>, b: seq<string>, sep: string)
    requires a != [] && b != []
    ensures Join(a + b, sep) == Join(a, sep) + sep + Join(b, sep)
  {
    assert (a + b)[0] == a[0];
    if |a| == 1 {
      assert (a + b)[1..] == b;
    } else {
      assert (a + b)[1..] == a[1..] + b;
      JoinAppend(a[1..], b, sep);
    }
  }

  /** The join of a run of consecutive parts occurs in the join of all parts. */
  lemma JoinSliceInJoin(parts: seq<string>, s: nat, e: nat, sep: string)
    requires s < e <= |parts|
    ensures Contains(Join(parts, sep), Join(parts[s..e], sep))
  {
    var mid := parts[s..e];
    var right := parts[s..];
    assert SubstringAt(Join(mid, sep), Join(mid, sep), 0);
    if e < |parts| {
      JoinAppend(mid, parts[e..], sep);
      assert mid + parts[e..] == right;
      ContainsInLeft(Join(mid, sep), sep + Join(parts[e..], sep), Join(mid, sep));
      assert Join(right, sep) == Join(mid, sep) + (sep + Join(parts[e..], sep));
    } else {
      assert mid == right;
    }
    assert Contains(Join(right, sep), Join(mid, sep));
    if s > 0 {
      JoinAppend(parts[..s], right, sep);
      assert parts[..s] + right == parts;
      ContainsInRight(Join(parts[..s], sep) + sep, Join(right, sep), Join(mid, sep));
      assert Join(parts, sep) == (Join(parts[..s], sep) + sep) + Join(right, sep);
    } else {
      assert right == parts;
    }
  }

  /** Occurrence is transitive. */
  lemma ContainsTrans(a: string, b: string, c: string)
    requires Contains(a, b) && Contains(b, c)
    ensures Contains(a, c)
  {
    var i: nat :| i <= |a| && SubstringAt(a, b, i);
    var j: nat :| j <= |b| && SubstringAt(b, c, j);
    forall k | 0 <= k < |c| ensures a[i + j + k] == c[k] {
      assert a[i..i + |b|][j + k] == b[j + k];
      assert b[j..j + |c|][k] == c[k];
    }
    assert a[i + j..i + j + |c|] == c;
    assert SubstringAt(a, c, i + j);
  }

  /** Splitting on a separator and joining with it again gives the text back. */
  lemma {:induction false} JoinSplit(s: string, sep: char)
    ensures Join(Split(s, sep), [sep]) == s
  {
    if s != [] {
      var rest := Split(s[1..], sep);
      JoinSplit(s[1..], sep);
      if s[0] == sep {
        assert ([[]] + rest)[1..] == rest;
        assert Join([[]] + rest, [sep]) == [] + [sep] + Join(rest, [sep]);
      } else {
        JoinConsHead([s[0]], rest[0], rest[1..], [sep]);
        assert [rest[0]] + rest[1..] == rest;
      }
    }
  }

  /** Joining parts free of the separator and splitting again gives the parts back. */
  lemma {:induction false} SplitJoin(parts: seq<string>, sep: char)
    requires |parts| >= 1
    requires forall k :: 0 <= k < |parts| ==> sep !in parts[k]
    ensures Split(Join(parts, [sep]), sep) == parts
  {
    if |parts| == 1 {
      SplitNoSep(parts[0], sep);
    } else {
      SplitJoin(parts[1..], sep);
      SplitPrefix(parts[0], Join(parts[1..], [sep]), sep);
      assert [parts[0]] + parts[1..] == parts;
    }
  }

  lemma {:induction false} SplitNoSep(s: string, sep: char)
    requires sep !in s
    ensures Split(s, sep) == [s]
  {
    if s != [] {
      SplitNoSep(s[1..], sep);
      assert [s[0]] + s[1..] == s;
    }
  }

  /** Split of `x + [sep] + y`, for `x` free of the separator. */
  lemma {:induction false} SplitPrefix(x: string, y: string, sep: char)
    requires sep !in x
    ensures Split(x + [sep] + y, sep) == [x] + Split(y, sep)
  {
    if x == [] {
      assert ([sep] + y)[1..] == y;
    } else {
      assert (x + [sep] + y)[1..] == x[1..] + [sep] + y;
      SplitPrefix(x[1..], y, sep);
      assert [x[0]] + x[1..] == x;
    }
  }

  // ----- split() on whitespace -----

  /** The longest prefix without whitespace. */
  function Word(s: string): (w: string)
    ensures |w| <= |s| && w == s[..|w|]
    ensures forall j :: 0 <= j < |w| ==> !IsSpace(w[j])
    ensures |w| < |s| ==> IsSpace(s[|w|])
  {
    if s == [] || IsSpace(s[0]) then [] else [s[0]] + Word(s[1..])
  }

  /** `s.split()`: the maximal runs of non-whitespace characters, in order. */
  function Words(s: string): (ws: seq<string>)
    ensures forall k :: 0 <= k < |ws| ==> IsWord(ws[k])
    decreases |s|
  {
    var t := TrimLeft(s);
    if t == [] then []
    else
      var w := Word(t);
      assert IsWord(w);
      var rest := Words(t[|w|..]);
      var ws := [w] + rest;
      assert forall k :: 1 <= k < |ws| ==> ws[k] == rest[k - 1];
      ws
  }

  /** A non-empty run of non-whitespace characters. */
  predicate IsWord(w: string) {
    w != [] && forall j :: 0 <= j < |w| ==> !IsSpace(w[j])
  }

  /** The non-whitespace characters of `s`, in order. */
  function NonSpace(s: string): string {
    if s == [] then []
    else (if IsSpace(s[0]) then [] else [s[0]]) + NonSpace(s[1..])
  }

  function Concat(ws: seq<string>): string {
    if ws == [] then [] else ws[0] + Concat(ws[1..])
  }

  lemma {:induction false} NonSpaceAppend(a: string, b: string)
    ensures NonSpace(a + b) == NonSpace(a) + NonSpace(b)
  {
    if a != [] {
      assert (a + b)[1..] == a[1..] + b;
      NonSpaceAppend(a[1..], b);
    } else {
      assert a + b == b;
    }
  }

  lemma {:induction false} NonSpaceOfSpaces(s: string)
    requires forall i :: 0 <= i < |s| ==> IsSpace(s[i])
    ensures NonSpace(s) == []
  {
    if s != [] {
      NonSpaceOfSpaces(s[1..]);
    }
  }

  lemma {:induction false} NonSpaceOfWord(w: string)
    requires forall i :: 0 <= i < |w| ==> !IsSpace(w[i])
    ensures NonSpace(w) == w
  {
    if w != [] {
      NonSpaceOfWord(w[1..]);
      assert [w[0]] + w[1..] == w;
    }
  }

  lemma NonSpaceTrimLeft(s: string)
    ensures NonSpace(s) == NonSpace(TrimLeft(s))
  {
    var t := TrimLeft(s);
    TrimLeftSuffix(s);
    assert s == s[..|s| - |t|] + t;
    NonSpaceAppend(s[..|s| - |t|], t);
    NonSpaceOfSpaces(s[..|s| - |t|]);
  }

  lemma NonSpaceWord(t: string)
    ensures NonSpace(t) == Word(t) + NonSpace(t[|Word(t)|..])
  {
    var w := Word(t);
    assert t == w + t[|w|..];
    NonSpaceAppend(w, t[|w|..]);
    NonSpaceOfWord(w);
  }

  /** The words of `split()` are exactly the text's non-whitespace characters,
      cut into pieces. */
  lemma {:induction false} WordsCoverNonSpace(s: string)
    ensures Concat(Words(s)) == NonSpace(s)
    decreases |s|
  {
    var t := TrimLeft(s);
    NonSpaceTrimLeft(s);
    if t != [] {
      var w := Word(t);
      var rest := t[|w|..];
      NonSpaceWord(t);
      WordsCoverNonSpace(rest);
      assert Words(s) == [w] + Words(rest);
      assert ([w] + Words(rest))[1..] == Words(rest);
    }
  }

  // ----- replace(pat, "") -----

  /** `s.replace(pat, "")`: occurrences are found left to right and do not overlap. */
  function RemoveAll(s: string, pat: string): (r: string)
    requires pat != []
    ensures |r| <= |s|
    decreases |s|
  {
    if |s| < |pat| then s
    else if s[..|pat|] == pat then RemoveAll(s[|pat|..], pat)
    else [s[0]] + RemoveAll(s[1..], pat)
  }

  /** Removal changes nothing in a text with no occurrence of the pattern. */
  lemma {:induction false} RemoveAllAbsent(s: string, pat: string)
    requires pat != []
    requires !Contains(s, pat)
    ensures RemoveAll(s, pat) == s
    decreases |s|
  {
    if |s| >= |pat| {
      assert !SubstringAt(s, pat, 0);
      assert [s[0]] + s[1..] == s;
      NotContainsTail(s[0], s[1..], pat);
      RemoveAllAbsent(s[1..], pat);
    }
  }

  const Fence: string := "```"

  /** Number of leading backticks. */
  function LeadTicks(s: string): nat {
    if s != [] && s[0] == '`' then 1 + LeadTicks(s[1..]) else 0
  }

  lemma LeadTicksOfFence(s: string)
    ensures SubstringAt(s, Fence, 0) ==> LeadTicks(s) >= 3
  {
    if SubstringAt(s, Fence, 0) {
      assert s[..3] == Fence;
      assert s[0] == '`' && s[1] == '`' && s[2] == '`';
      var s1 := s[1..];
      var s2 := s1[1..];
      assert s1[0] == '`' && s2[0] == '`';
      assert LeadTicks(s2) >= 1;
    }
  }

  /** Removing every fence turns a run of n leading backticks into n mod 3. */
  lemma {:induction false} RemoveFencesLeadTicks(s: string)
    ensures LeadTicks(RemoveAll(s, Fence)) == LeadTicks(s) % 3
    decreases |s|
  {
    if |s| < 3 {
      NoFenceInShort(s);
      ShortLeadTicks(s);
    } else if s[..3] == Fence {
      RemoveFencesLeadTicks(s[3..]);
      LeadTicksAfterFence(s);
    } else if s[0] == '`' {
      RemoveFencesLeadTicks(s[1..]);
      assert RemoveAll(s, Fence) == [s[0]] + RemoveAll(s[1..], Fence);
      ShortRunOfTicks(s);
    } else {
      assert RemoveAll(s, Fence) == [s[0]] + RemoveAll(s[1..], Fence);
    }
  }

  /** Removing every fence leaves no fence. */
  lemma {:induction false} RemoveFencesLeavesNone(s: string)
    ensures !Contains(RemoveAll(s, Fence), Fence)
    decreases |s|
  {
    if |s| < 3 {
      NoFenceInShort(s);
    } else if s[..3] == Fence {
      RemoveFencesLeavesNone(s[3..]);
    } else {
      var r := RemoveAll(s, Fence);
      var tail := RemoveAll(s[1..], Fence);
      RemoveFencesLeavesNone(s[1..]);
      assert r == [s[0]] + tail;
      if s[0] == '`' {
        RemoveFencesLeadTicks(s);
        assert !(s[1] == '`' && s[2] == '`');
        ShortRunOfTicks(s);
        LeadTicksOfFence(r);
      }
      NotContainsCons(s[0], tail, Fence);
    }
  }

  lemma LeadTicksAfterFence(s: string)
    requires |s| >= 3 && s[..3] == Fence
    ensures LeadTicks(s) == 3 + LeadTicks(s[3..])
  {
    assert s[0] == '`' && s[1] == '`' && s[2] == '`';
    var s1 := s[1..];
    var s2 := s1[1..];
    assert s2[0] == '`' && s2[1..] == s[3..];
    assert LeadTicks(s2) == 1 + LeadTicks(s[3..]);
    assert LeadTicks(s1) == 1 + LeadTicks(s2);
  }

  /** A text opening with fewer than three backticks. */
  lemma ShortRunOfTicks(s: string)
    requires |s| >= 3 && !(s[1] == '`' && s[2] == '`')
    ensures LeadTicks(s) < 3
    ensures s[0] == '`' ==> LeadTicks(s) == 1 + LeadTicks(s[1..]) && LeadTicks(s[1..]) < 2
  {
    if s[0] == '`' && s[1] == '`' {
      assert s[1..][1..][0] == s[2];
      assert LeadTicks(s[1..][1..]) == 0;
      assert LeadTicks(s[1..]) == 1;
    }
  }

  lemma NoFenceInShort(s: string)
    requires |s| < 3
    ensures RemoveAll(s, Fence) == s && !Contains(s, Fence)
  {
  }

  lemma ShortLeadTicks(s: string)
    requires |s| < 3
    ensures LeadTicks(s) < 3
  {
    if s != [] && s[0] == '`' {
      assert |s[1..]| < 2;
      if s[1..] != [] && s[1..][0] == '`' {
        assert |s[1..][1..]| < 1;
      }
    }
  }

  /** Removing fences a second time changes nothing. */
  lemma RemoveFencesIdempotent(s: string)
    ensures RemoveAll(RemoveAll(s, Fence), Fence) == RemoveAll(s, Fence)
  {
    RemoveFencesLeavesNone(s);
    RemoveAllAbsent(RemoveAll(s, Fence), Fence);
  }
}
