/** Python's string operations on ASCII text, as functions on sequences of characters. */
module Text {

  // -------- Characters --------

  // The ASCII characters for which str.isspace() holds.
  const WHITE: set<char> := {
    ' ', '\t', '\n', '\U{B}', '\U{C}', '\r', '\U{1C}', '\U{1D}', '\U{1E}', '\U{1F}'
  }

  predicate IsSpace(c: char) {
    c in WHITE
  }

  function LowerChar(c: char): char {
    if 'A' <= c <= 'Z' then c + 32 as char else c
  }

  function Lower(s: string): string {
    seq(|s|, i requires 0 <= i < |s| => LowerChar(s[i]))
  }

  // Two characters that are the same letter, perhaps in different case, or the same character.
  predicate SameLetter(c: char, d: char) {
    || c == d
    || ('A' <= c <= 'Z' && d as int == c as int + 32)
    || ('A' <= d <= 'Z' && c as int == d as int + 32)
  }

  predicate SameLetters(s: string, t: string) {
    |s| == |t| && forall i | 0 <= i < |s| :: SameLetter(s[i], t[i])
  }

  // Lower case forgets the case of letters and nothing else, and leaves none in upper case.
  lemma LowerForgetsCase(s: string, t: string)
    ensures Lower(s) == Lower(t) <==> SameLetters(s, t)
    ensures SameLetters(s, Lower(s))
    ensures forall c | c in Lower(s) :: !('A' <= c <= 'Z')
  {
    if Lower(s) == Lower(t) {
      forall i | 0 <= i < |s| ensures SameLetter(s[i], t[i]) {
        assert Lower(s)[i] == Lower(t)[i];
      }
    }
  }

  lemma LowerTwice(s: string)
    ensures Lower(Lower(s)) == Lower(s)
  {
  }

  // -------- Searching --------

  ghost predicate At(s: string, needle: string, i: int) {
    0 <= i && i + |needle| <= |s| && s[i..i + |needle|] == needle
  }

  ghost predicate IsPart(needle: string, s: string) {
    exists i: int :: At(s, needle, i)
  }

  // str.find
  function Find(s: string, needle: string): (r: int)
    ensures r == -1 || 0 <= r <= |s| - |needle|
  {
    FindFrom(s, needle, 0)
  }

  function FindFrom(s: string, needle: string, from: nat): (r: int)
    requires from <= |s|
    ensures r == -1 || 0 <= r <= |s| - |needle|
    decreases |s| - from
  {
    if from + |needle| > |s| then -1
    else if s[from..from + |needle|] == needle then from
    else if from == |s| then -1
    else FindFrom(s, needle, from + 1)
  }

  lemma {:induction false} FindFromIsFirst(s: string, needle: string, from: nat)
    requires from <= |s|
    ensures var r := FindFrom(s, needle, from);
            if r == -1 then forall i: int | from <= i :: !At(s, needle, i)
            else from <= r && At(s, needle, r) && forall i: int | from <= i < r :: !At(s, needle, i)
    decreases |s| - from
  {
    if from + |needle| <= |s| && s[from..from + |needle|] != needle && from < |s| {
      FindFromIsFirst(s, needle, from + 1);
    }
  }

  // The least position of the needle, or -1 when it is nowhere.
  lemma FindIsFirst(s: string, needle: string)
    ensures Find(s, needle) == -1 <==> !IsPart(needle, s)
    ensures Find(s, needle) != -1 ==> At(s, needle, Find(s, needle))
    ensures forall i: int | At(s, needle, i) :: 0 <= Find(s, needle) <= i
  {
    FindFromIsFirst(s, needle, 0);
  }

  predicate StartsWith(s: string, prefix: string) {
    prefix <= s
  }

  predicate StartsWithAny(s: string, prefixes: seq<string>) {
    exists i | 0 <= i < |prefixes| :: StartsWith(s, prefixes[i])
  }

  // The part before the first occurrence of the character, or everything.
  function Before(s: string, c: char): (r: string)
    ensures r <= s && c !in r
    ensures c in s ==> |r| < |s| && s[|r|] == c
    ensures c !in s ==> r == s
  {
    if s == "" || s[0] == c then ""
    else [s[0]] + Before(s[1..], c)
  }

  function Without(s: string, dropped: set<char>): (r: string)
    ensures forall c | c in r :: c in s && c !in dropped
  {
    if s == "" then ""
    else if s[0] in dropped then Without(s[1..], dropped)
    else [s[0]] + Without(s[1..], dropped)
  }

  lemma {:induction false} WithoutNothing(s: string, dropped: set<char>)
    requires forall c | c in s :: c !in dropped
    ensures Without(s, dropped) == s
  {
    if s != "" {
      assert s[0] in s;
      WithoutNothing(s[1..], dropped);
      assert s == [s[0]] + s[1..];
    }
  }

  lemma {:induction false} WithoutAppended(s: string, t: string, dropped: set<char>)
    ensures Without(s + t, dropped) == Without(s, dropped) + Without(t, dropped)
  {
    if s == "" {
      assert s + t == t;
    } else {
      assert (s + t)[1..] == s[1..] + t;
      WithoutAppended(s[1..], t, dropped);
    }
  }

  // -------- Trimming --------

  function Leading(s: string, drop: set<char>): (n: nat)
    ensures n <= |s|
    ensures n < |s| ==> s[n] !in drop
  {
    if s == "" || s[0] !in drop then 0 else 1 + Leading(s[1..], drop)
  }

  function Trailing(s: string, drop: set<char>): (n: nat)
    ensures n <= |s|
    ensures n < |s| ==> s[|s| - 1 - n] !in drop
  {
    if s == "" || s[|s| - 1] !in drop then 0 else 1 + Trailing(s[..|s| - 1], drop)
  }

  lemma {:induction false} LeadingRun(s: string, drop: set<char>)
    ensures forall i | 0 <= i < Leading(s, drop) :: s[i] in drop
  {
    if s != "" && s[0] in drop {
      LeadingRun(s[1..], drop);
    }
  }

  lemma {:induction false} TrailingRun(s: string, drop: set<char>)
    ensures forall i | |s| - Trailing(s, drop) <= i < |s| :: s[i] in drop
  {
    if s != "" && s[|s| - 1] in drop {
      TrailingRun(s[..|s| - 1], drop);
    }
  }

  predicate TrimmedOf(s: string, drop: set<char>) {
    s == "" || (s[0] !in drop && s[|s| - 1] !in drop)
  }

  // str.strip with a set of characters given as a predicate.
  function StripOf(s: string, drop: set<char>): string {
    var left := s[Leading(s, drop)..];
    left[..|left| - Trailing(left, drop)]
  }

  lemma StripIsPart(s: string, drop: set<char>)
    ensures TrimmedOf(StripOf(s, drop), drop)
    ensures IsPart(StripOf(s, drop), s)
    ensures |StripOf(s, drop)| <= |s|
  {
    assert At(s, StripOf(s, drop), Leading(s, drop));
  }

  function Strip(s: string): string {
    StripOf(s, WHITE)
  }

  predicate Trimmed(s: string) {
    TrimmedOf(s, WHITE)
  }

  // Stripping keeps every occurrence of text that itself has nothing to strip.
  lemma StripKeeps(s: string, needle: string, drop: set<char>, at: nat)
    requires At(s, needle, at) && TrimmedOf(needle, drop)
    ensures IsPart(needle, StripOf(s, drop))
  {
    var r, a := StripOf(s, drop), Leading(s, drop);
    if needle == "" {
      assert At(r, needle, 0);
    } else {
      var last := at + |needle| - 1;
      assert s[at] == needle[0] && s[last] == needle[|needle| - 1];
      LeadingRun(s, drop);
      assert a <= at;
      var left := s[a..];
      TrailingRun(left, drop);
      assert left[last - a] == s[last];
      assert last - a < |r|;
      assert r == s[a..a + |r|];
      SliceKeeps(s, needle, at, a, a + |r|);
    }
  }

  lemma PartOfPart(needle: string, middle: string, s: string)
    requires IsPart(needle, middle) && IsPart(middle, s)
    ensures IsPart(needle, s)
  {
    var i: int :| At(middle, needle, i);
    var j: int :| At(s, middle, j);
    assert forall k | 0 <= k < |needle| :: needle[k] == middle[i + k] && middle[i + k] == s[j + (i + k)];
    assert s[j + i..j + i + |needle|] == needle;
    assert At(s, needle, j + i);
  }

  lemma LowerKeepsParts(needle: string, s: string)
    requires IsPart(needle, s)
    ensures IsPart(Lower(needle), Lower(s))
  {
    var i: int :| At(s, needle, i);
    var n := |needle|;
    assert forall k | 0 <= k < n :: Lower(s)[i + k] == LowerChar(s[i + k]) && s[i + k] == needle[k];
    assert Lower(s)[i..i + n] == Lower(needle);
    assert At(Lower(s), Lower(needle), i);
  }

  lemma SliceKeeps(s: string, needle: string, at: int, start: int, end: int)
    requires At(s, needle, at)
    requires 0 <= start <= at && at + |needle| <= end <= |s|
    ensures At(s[start..end], needle, at - start)
    ensures IsPart(s[start..end], s)
  {
    var part := s[start..end];
    var i := at - start;
    assert |part| == end - start;
    assert forall k | 0 <= k < |needle| :: part[i + k] == s[at + k] && s[at + k] == needle[k];
    assert part[i..i + |needle|] == needle;
    assert At(s, part, start);
  }

  // -------- Order --------

  // Python's < on strings, or equality: code point by code point, the shorter first.
  predicate UpTo(s: string, t: string) {
    s == "" || (t != "" && (s[0] < t[0] || (s[0] == t[0] && UpTo(s[1..], t[1..]))))
  }

  lemma {:induction false} UpToTotal(s: string, t: string)
    ensures UpTo(s, t) || UpTo(t, s)
  {
    if s != "" && t != "" && s[0] == t[0] {
      UpToTotal(s[1..], t[1..]);
    }
  }

  lemma {:induction false} UpToTransitive(s: string, t: string, u: string)
    requires UpTo(s, t) && UpTo(t, u)
    ensures UpTo(s, u)
  {
    if s != "" && s[0] == t[0] && t[0] == u[0] {
      UpToTransitive(s[1..], t[1..], u[1..]);
    }
  }

  lemma {:induction false} UpToAntisymmetric(s: string, t: string)
    requires UpTo(s, t) && UpTo(t, s)
    ensures s == t
  {
    if s != "" {
      UpToAntisymmetric(s[1..], t[1..]);
    }
  }

  // -------- Words --------

  predicate IsWord(w: string) {
    w != "" && forall c | c in w :: !IsSpace(c)
  }

  // str.split(): the maximal runs without white space.
  function Words(s: string): seq<string>
    decreases |s|
  {
    if s == "" then []
    else if IsSpace(s[0]) then Words(s[1..])
    else
      var k := WordLength(s);
      [s[..k]] + Words(s[k..])
  }

  lemma {:induction false} WordsAreWords(s: string)
    ensures forall w | w in Words(s) :: IsWord(w)
    decreases |s|
  {
    if s != "" {
      if IsSpace(s[0]) {
        WordsAreWords(s[1..]);
      } else {
        WordsAreWords(s[WordLength(s)..]);
      }
    }
  }

  function WordLength(s: string): (k: nat)
    ensures k <= |s|
    ensures forall i | 0 <= i < k :: !IsSpace(s[i])
    ensures k < |s| ==> IsSpace(s[k])
    ensures s != "" && !IsSpace(s[0]) ==> k > 0
  {
    if s == "" || IsSpace(s[0]) then 0 else 1 + WordLength(s[1..])
  }

  // " ".join(words)
  function Join(ws: seq<string>): string {
    if ws == [] then ""
    else if |ws| == 1 then ws[0]
    else ws[0] + " " + Join(ws[1..])
  }

  // Every run of the characters becomes one space.
  function Squeeze(s: string, drop: set<char>): string
    decreases |s|
  {
    if s == "" then ""
    else if s[0] in drop then " " + Squeeze(s[Leading(s, drop)..], drop)
    else [s[0]] + Squeeze(s[1..], drop)
  }

  function Flatten(s: string): string {
    Strip(Squeeze(s, WHITE))
  }

  lemma WordsAfterWord(w: string, rest: string)
    requires IsWord(w)
    requires rest != "" ==> IsSpace(rest[0])
    ensures Words(w + rest) == [w] + Words(rest)
  {
    var s := w + rest;
    WordLengthOf(w, rest);
    assert s[0] == w[0] && w[0] in w;
    assert s[..|w|] == w && s[|w|..] == rest;
  }

  lemma {:induction false} WordLengthOf(w: string, rest: string)
    requires forall c | c in w :: !IsSpace(c)
    requires rest != "" ==> IsSpace(rest[0])
    ensures WordLength(w + rest) == |w|
  {
    if w == "" {
      assert w + rest == rest;
    } else {
      assert w[0] in w;
      assert (w + rest)[1..] == w[1..] + rest;
      WordLengthOf(w[1..], rest);
    }
  }

  lemma SplitFirst(s: string) returns (w: string, rest: string)
    requires s != "" && !IsSpace(s[0])
    ensures s == w + rest && IsWord(w) && (rest != "" ==> IsSpace(rest[0]))
    ensures Words(s) == [w] + Words(rest)
  {
    w, rest := s[..WordLength(s)], s[WordLength(s)..];
    assert s == w + rest;
    WordsAfterWord(w, rest);
  }

  lemma WordsAfterSpace(s: string)
    requires s != "" && IsSpace(s[0])
    ensures Words(s) == Words(s[1..])
  {
  }

  lemma {:induction false} PrependWord(w: string, rest: string, t: string, both: string)
    requires IsWord(w)
    requires rest != "" ==> IsSpace(rest[0])
    requires both != "" ==> IsSpace(both[0])
    requires Words(both) == Words(rest) + Words(t)
    ensures Words(w + both) == Words(w + rest) + Words(t)
  {
    WordsAfterWord(w, both);
    WordsAfterWord(w, rest);
  }

  lemma Regroup(a: string, b: string, c: string)
    ensures a + b + c == a + (b + c)
  {
  }

  // Splitting at a space splits the words.
  lemma {:induction false} WordsOfSplit(s: string, t: string)
    requires t != "" ==> IsSpace(t[0])
    ensures Words(s + t) == Words(s) + Words(t)
    decreases |s|, 1
  {
    if s == "" {
      assert s + t == t;
    } else if IsSpace(s[0]) {
      assert (s + t)[1..] == s[1..] + t;
      WordsOfSplit(s[1..], t);
      WordsAfterSpace(s + t);
    } else {
      WordsOfSplitWord(s, t);
    }
  }

  lemma {:induction false} WordsOfSplitWord(s: string, t: string)
    requires s != "" && !IsSpace(s[0])
    requires t != "" ==> IsSpace(t[0])
    ensures Words(s + t) == Words(s) + Words(t)
    decreases |s|, 0
  {
    var w, rest := SplitFirst(s);
    WordsOfSplit(rest, t);
    var both := rest + t;
    assert both != "" ==> IsSpace(both[0]);
    PrependWord(w, rest, t, both);
    Regroup(w, rest, t);
  }

  // Splitting undoes joining.
  lemma {:induction false} WordsOfJoin(ws: seq<string>)
    requires forall w | w in ws :: IsWord(w)
    ensures Words(Join(ws)) == ws
  {
    if ws == [] {
    } else if |ws| == 1 {
      WordsAfterWord(ws[0], "");
      assert ws[0] + "" == ws[0];
    } else {
      var rest := " " + Join(ws[1..]);
      assert Join(ws) == ws[0] + rest;
      WordsAfterWord(ws[0], rest);
      assert rest[1..] == Join(ws[1..]);
      WordsOfJoin(ws[1..]);
    }
  }

  lemma {:induction false} JoinTrimmed(ws: seq<string>)
    requires forall w | w in ws :: IsWord(w)
    ensures Trimmed(Join(ws))
    ensures ws != [] ==> Join(ws) != ""
  {
    if ws != [] {
      assert IsWord(ws[0]) && ws[0][0] in ws[0] && ws[0][|ws[0]| - 1] in ws[0];
    }
    if |ws| > 1 {
      JoinTrimmed(ws[1..]);
      assert IsWord(ws[1]);
      var tail := Join(ws[1..]);
      assert Join(ws)[|Join(ws)| - 1] == tail[|tail| - 1];
    }
  }

  lemma {:induction false} CollapseWord(w: string, rest: string)
    requires forall c | c in w :: !IsSpace(c)
    ensures Squeeze(w + rest, WHITE) == w + Squeeze(rest, WHITE)
  {
    if w == "" {
      assert w + rest == rest;
    } else {
      assert (w + rest)[1..] == w[1..] + rest;
      assert w[0] in w;
      CollapseWord(w[1..], rest);
    }
  }

  lemma {:induction false} WordsPastSpaces(s: string, n: nat)
    requires n <= |s| && forall i | 0 <= i < n :: IsSpace(s[i])
    ensures Words(s) == Words(s[n..])
    decreases n
  {
    if n > 0 {
      WordsPastSpaces(s[1..], n - 1);
      assert s[1..][n - 1..] == s[n..];
    }
  }

  lemma CollapseFirst(w: string, gap: string)
    requires IsWord(w)
    requires gap != "" && IsSpace(gap[0])
    ensures Squeeze(w + gap, WHITE) == w + " " + Squeeze(gap[Leading(gap, WHITE)..], WHITE)
    ensures Words(w + gap) == [w] + Words(gap[Leading(gap, WHITE)..])
  {
    CollapseWord(w, gap);
    LeadingRun(gap, WHITE);
    WordsPastSpaces(gap, Leading(gap, WHITE));
    WordsAfterWord(w, gap);
    Regroup(w, " ", Squeeze(gap[Leading(gap, WHITE)..], WHITE));
  }

  lemma JoinFirst(w: string, ws: seq<string>)
    requires ws != []
    ensures Join([w] + ws) == w + " " + Join(ws)
  {
    assert ([w] + ws)[1..] == ws;
  }

  function Gap(s: string): (g: string)
    ensures g == "" || g == " "
  {
    if s != "" && IsSpace(s[|s| - 1]) then " " else ""
  }

  lemma GapBehind(w: string, gap: string)
    requires gap != "" && IsSpace(gap[0])
    ensures var rest := gap[Leading(gap, WHITE)..];
            Gap(w + gap) == if rest == "" then " " else Gap(rest)
  {
    var rest := gap[Leading(gap, WHITE)..];
    assert (w + gap)[|w + gap| - 1] == gap[|gap| - 1];
    if rest != "" {
      assert gap[|gap| - 1] == rest[|rest| - 1];
    }
  }

  // Text that does not start with a space collapses to its joined words, with one space behind when it ends in one.
  lemma {:induction false} CollapseIsJoin(s: string)
    requires s != "" ==> !IsSpace(s[0])
    ensures Squeeze(s, WHITE) == Join(Words(s)) + Gap(s)
    ensures s != "" ==> Words(s) != []
    decreases |s|
  {
    if s != "" {
      var w, gap := SplitFirst(s);
      if gap == "" {
        CollapseOneWord(w);
        assert w + gap == w;
      } else {
        CollapseIsJoin(gap[Leading(gap, WHITE)..]);
        CollapseStep(w, gap);
      }
    }
  }

  lemma CollapseOneWord(w: string)
    requires IsWord(w)
    ensures Squeeze(w, WHITE) == Join(Words(w)) + Gap(w)
  {
    assert w + "" == w && w[|w| - 1] in w;
    CollapseWord(w, "");
    WordsAfterWord(w, "");
  }

  lemma {:induction false} CollapseStep(w: string, gap: string)
    requires IsWord(w) && gap != "" && IsSpace(gap[0])
    requires var rest := gap[Leading(gap, WHITE)..];
             Squeeze(rest, WHITE) == Join(Words(rest)) + Gap(rest) && (rest != "" ==> Words(rest) != [])
    ensures Squeeze(w + gap, WHITE) == Join(Words(w + gap)) + Gap(w + gap)
  {
    var rest := gap[Leading(gap, WHITE)..];
    CollapseFirst(w, gap);
    GapBehind(w, gap);
    if rest == "" {
      assert Words(w + gap) == [w];
    } else {
      JoinFirst(w, Words(rest));
      assert w + " " + (Join(Words(rest)) + Gap(rest)) == w + " " + Join(Words(rest)) + Gap(rest);
    }
  }

  lemma StripBefore(body: string, after: string)
    requires body != "" && Trimmed(body)
    requires after == "" || after == " "
    ensures Strip(body + after) == body
  {
    var s := body + after;
    assert s[0] == body[0];
    assert Leading(s, WHITE) == 0;
    assert s[0..] == s;
    assert s[|body| - 1] == body[|body| - 1];
    assert Trailing(s, WHITE) == |after|;
    assert s[..|body|] == body;
  }

  lemma StripSpace(s: string)
    requires s != "" && !IsSpace(s[0])
    ensures Strip(" " + s) == Strip(s)
  {
    var t := " " + s;
    assert t[1] == s[0];
    assert Leading(t, WHITE) == 1 && Leading(s, WHITE) == 0;
    assert t[1..] == s && s[0..] == s;
  }

  // Collapsing and stripping is splitting and joining with single spaces.
  lemma {:induction false} FlattenIsJoin(s: string)
    ensures Flatten(s) == Join(Words(s))
  {
    var n := Leading(s, WHITE);
    var rest := s[n..];
    LeadingRun(s, WHITE);
    WordsPastSpaces(s, n);
    CollapseIsJoin(rest);
    if rest == "" {
      FlattenBlank(s);
    } else {
      WordsAreWords(rest);
      JoinTrimmed(Words(rest));
      StripBefore(Join(Words(rest)), Gap(rest));
      if n == 0 {
        assert rest == s;
      } else {
        assert Squeeze(s, WHITE) == " " + Squeeze(rest, WHITE);
        assert Squeeze(rest, WHITE)[0] == rest[0];
        StripSpace(Squeeze(rest, WHITE));
      }
    }
  }

  lemma FlattenBlank(s: string)
    requires Leading(s, WHITE) == |s|
    ensures Flatten(s) == ""
  {
    if s != "" {
      assert s[|s|..] == "";
      assert IsSpace(s[0]);
      assert Squeeze(s, WHITE) == " " + "";
      assert Leading(" ", WHITE) == 1;
    }
  }
}
