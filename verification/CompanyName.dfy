/** The company de-duplication key (apps/backend/app/shared/normalization.py) on ASCII names. */
module CompanyName {
  import opened Text

  const COMPANY_SUFFIXES: seq<string> := [
    "incorporated", "inc", "corporation", "corp", "company", "co", "limited", "ltd", "llc", "l.l.c.",
    "llp", "l.l.p.", "plc", "gmbh", "s.a.", "s.a", "sa", "bv", "b.v.",
    "pty ltd", "pty. ltd.", "pte ltd", "pte. ltd."
  ]

  // The ASCII members of the punctuation class.
  const PUNCTUATION: set<char> := {',', '-', '(', ')', '[', ']', '{', '}', '\"', '\'', '`'}

  function Undotted(s: string): (r: string)
    ensures |r| == |s|
    ensures forall i | 0 <= i < |s| :: r[i] == if s[i] == '.' then ' ' else s[i]
  {
    seq(|s|, i requires 0 <= i < |s| => if s[i] == '.' then ' ' else s[i])
  }

  function Unpunctuated(raw: string): string {
    Squeeze(Undotted(Lower(raw)), PUNCTUATION)
  }

  function Cleaned(raw: string): string {
    Flatten(Unpunctuated(raw))
  }

  function Tokens(raw: string): seq<string> {
    Words(Cleaned(raw))
  }

  function WithoutTrailingDots(t: string): string {
    t[..|t| - Trailing(t, {'.'})]
  }

  // The suffixes are an argument, so what follows holds for any table of them.
  predicate IsSuffix(table: seq<string>, t: string) {
    t in table || WithoutTrailingDots(t) in table
  }

  function Kept(table: seq<string>, ws: seq<string>): (r: seq<string>)
    ensures forall w | w in r :: w in ws && !IsSuffix(table, w)
  {
    if ws == [] then []
    else if IsSuffix(table, ws[0]) then Kept(table, ws[1..])
    else [ws[0]] + Kept(table, ws[1..])
  }

  function Normalize(table: seq<string>, raw: string): string {
    if raw == "" then ""
    else
      var n := Cleaned(raw);
      var result := Kept(table, Words(n));
      if result != [] then Join(result) else n
  }

  // -------- What a key stands for --------

  // The words two names must share to be the same company.
  function KeyWords(table: seq<string>, raw: string): seq<string> {
    if Kept(table, Tokens(raw)) != [] then Kept(table, Tokens(raw)) else Tokens(raw)
  }

  predicate Settled(s: string) {
    forall c | c in s :: LowerChar(c) == c && c != '.' && c !in PUNCTUATION
  }

  lemma {:induction false} SqueezeSettles(s: string, drop: set<char>)
    requires ' ' !in drop
    ensures forall c | c in Squeeze(s, drop) :: c !in drop && (c == ' ' || c in s)
    decreases |s|
  {
    if s != "" {
      var rest := if s[0] in drop then s[Leading(s, drop)..] else s[1..];
      SqueezeSettles(rest, drop);
      assert forall c | c in rest :: c in s;
    }
  }

  lemma {:induction false} SqueezeNothing(s: string, drop: set<char>)
    requires forall c | c in s :: c !in drop
    ensures Squeeze(s, drop) == s
  {
    if s != "" {
      assert s[0] in s;
      SqueezeNothing(s[1..], drop);
      assert s == [s[0]] + s[1..];
    }
  }

  lemma UnpunctuatedIsSettled(raw: string)
    ensures Settled(Unpunctuated(raw))
  {
    var s := Undotted(Lower(raw));
    forall c | c in s
      ensures LowerChar(c) == c && c != '.'
    {
      var i: nat :| i < |s| && s[i] == c;
      assert Lower(raw)[i] == LowerChar(raw[i]);
    }
    SqueezeSettles(s, PUNCTUATION);
  }

  lemma {:induction false} WordsWithin(s: string)
    ensures forall w | w in Words(s) :: forall c | c in w :: c in s
    decreases |s|
  {
    if s != "" {
      if IsSpace(s[0]) {
        WordsWithin(s[1..]);
      } else {
        var w, rest := SplitFirst(s);
        WordsWithin(rest);
        assert forall c | c in rest :: c in s;
      }
    }
  }

  lemma {:induction false} JoinWithin(ws: seq<string>)
    requires forall w | w in ws :: Settled(w)
    ensures Settled(Join(ws))
  {
    if |ws| > 1 {
      JoinWithin(ws[1..]);
    }
    if ws != [] {
      assert Settled(ws[0]);
    }
  }

  // The tokens are settled words, and the cleaned name is those words with single spaces.
  lemma TokensAreSettled(raw: string)
    ensures Cleaned(raw) == Join(Tokens(raw))
    ensures Tokens(raw) == Words(Unpunctuated(raw))
    ensures forall w | w in Tokens(raw) :: IsWord(w) && Settled(w)
  {
    var s := Unpunctuated(raw);
    FlattenIsJoin(s);
    WordsAreWords(s);
    WordsOfJoin(Words(s));
    UnpunctuatedIsSettled(raw);
    WordsWithin(s);
  }

  // A key is its words with single spaces, and a name that is already such a key has those words as tokens.
  lemma NormalizeIsJoin(table: seq<string>, raw: string)
    ensures Normalize(table, raw) == Join(KeyWords(table, raw))
    ensures Words(Normalize(table, raw)) == KeyWords(table, raw)
    ensures forall w | w in KeyWords(table, raw) :: IsWord(w) && Settled(w)
  {
    TokensAreSettled(raw);
    WordsOfJoin(KeyWords(table, raw));
    if raw == "" {
      assert Tokens(raw) == [];
    }
  }

  lemma TokensOfJoin(ws: seq<string>)
    requires forall w | w in ws :: IsWord(w) && Settled(w)
    ensures Tokens(Join(ws)) == ws
  {
    var s := Join(ws);
    JoinWithin(ws);
    assert forall i | 0 <= i < |s| :: s[i] in s;
    assert Lower(s) == s && Undotted(s) == s;
    SqueezeNothing(s, PUNCTUATION);
    WordsOfJoin(ws);
    TokensAreSettled(s);
  }

  lemma {:induction false} KeptTwice(table: seq<string>, ws: seq<string>)
    ensures Kept(table, Kept(table, ws)) == Kept(table, ws)
  {
    if ws != [] {
      KeptTwice(table, ws[1..]);
      if !IsSuffix(table, ws[0]) {
        assert Kept(table, ws)[1..] == Kept(table, ws[1..]);
      }
    }
  }

  // -------- Main results --------

  // Normalising a key changes nothing.
  lemma NormalizeTwice(table: seq<string>, raw: string)
    ensures Normalize(table, Normalize(table, raw)) == Normalize(table, raw)
  {
    NormalizeIsJoin(table, raw);
    TokensOfJoin(KeyWords(table, raw));
    KeptTwice(table, Tokens(raw));
    NormalizeIsJoin(table, Normalize(table, raw));
  }

  // Two names have the same key exactly when they have the same key words.
  lemma SameKeyIff(table: seq<string>, a: string, b: string)
    ensures Normalize(table, a) == Normalize(table, b) <==> KeyWords(table, a) == KeyWords(table, b)
  {
    NormalizeIsJoin(table, a);
    NormalizeIsJoin(table, b);
  }

  // -------- Spellings of one name --------

  // White space, dots and the punctuation marks all do the same: they separate.
  predicate IsSeparator(c: char) {
    IsSpace(c) || c in {'.', ',', '-', '(', ')', '[', ']', '{', '}', '\"', '\'', '`'}
  }

  predicate SpelledAlike(a: string, b: string) {
    |a| == |b| && forall i | 0 <= i < |a| :: SameLetter(a[i], b[i]) || (IsSeparator(a[i]) && IsSeparator(b[i]))
  }

  function Blanked(s: string, drop: set<char>): (r: string)
    ensures |r| == |s| && forall i | 0 <= i < |s| :: r[i] == if s[i] in drop then ' ' else s[i]
  {
    seq(|s|, i requires 0 <= i < |s| => if s[i] in drop then ' ' else s[i])
  }

  // Two texts with the same words, both in the middle of a word or both not.
  predicate SameWords(s: string, t: string) {
    Words(s) == Words(t) && (s != "" && !IsSpace(s[0]) <==> t != "" && !IsSpace(t[0]))
  }

  lemma WordsOfMore(c: char, s: string)
    ensures Words([c] + s) == if IsSpace(c) then Words(s)
                              else if s == "" || IsSpace(s[0]) then [[c]] + Words(s)
                              else [[c] + Words(s)[0]] + Words(s)[1..]
  {
    var t := [c] + s;
    assert t[1..] == s;
    if !IsSpace(c) {
      if s == "" || IsSpace(s[0]) {
        WordsAfterWord([c], s);
      } else {
        var w, rest := SplitFirst(s);
        assert t == ([c] + w) + rest;
        WordsAfterWord([c] + w, rest);
        WordsAfterWord(w, rest);
      }
    }
  }

  lemma SameWordsWithMore(c: char, s: string, t: string)
    requires SameWords(s, t)
    ensures SameWords([c] + s, [c] + t)
  {
    WordsOfMore(c, s);
    WordsOfMore(c, t);
  }

  // Squeezing a run of marks into one space, or blanking each of them, leaves the same words.
  lemma {:induction false} SqueezedAndBlanked(s: string, drop: set<char>)
    ensures SameWords(Squeeze(s, drop), Blanked(s, drop))
    decreases |s|
  {
    if s != "" {
      if s[0] in drop {
        var n := Leading(s, drop);
        LeadingRun(s, drop);
        SqueezedAndBlanked(s[n..], drop);
        assert Blanked(s, drop)[n..] == Blanked(s[n..], drop);
        WordsPastSpaces(Blanked(s, drop), n);
        WordsOfMore(' ', Squeeze(s[n..], drop));
      } else {
        SqueezedAndBlanked(s[1..], drop);
        assert Blanked(s, drop) == [s[0]] + Blanked(s[1..], drop);
        SameWordsWithMore(s[0], Squeeze(s[1..], drop), Blanked(s[1..], drop));
      }
    }
  }

  // The words do not depend on which white space stands between them.
  lemma {:induction false} AnyWhiteSpace(s: string, t: string)
    requires |s| == |t| && forall i | 0 <= i < |s| :: s[i] == t[i] || (IsSpace(s[i]) && IsSpace(t[i]))
    ensures SameWords(s, t)
  {
    if s != "" {
      AnyWhiteSpace(s[1..], t[1..]);
      assert [s[0]] + s[1..] == s && [t[0]] + t[1..] == t;
      WordsOfMore(s[0], s[1..]);
      WordsOfMore(t[0], t[1..]);
    }
  }

  // A character as the name is split: in lower case, with a space for a dot or a mark.
  function Cleared(c: char): char {
    var d := LowerChar(c);
    if d == '.' || d in PUNCTUATION then ' ' else d
  }

  lemma ClearedAlike(c: char, d: char)
    requires SameLetter(c, d) || (IsSeparator(c) && IsSeparator(d))
    ensures Cleared(c) == Cleared(d) || (IsSpace(Cleared(c)) && IsSpace(Cleared(d)))
  {
    if IsSeparator(c) && IsSeparator(d) {
      ClearedSeparator(c);
      ClearedSeparator(d);
    }
  }

  lemma ClearedSeparator(c: char)
    requires IsSeparator(c)
    ensures IsSpace(Cleared(c))
  {
  }

  // The tokens are the words of the name with every character cleared.
  lemma TokensOfCleared(raw: string, cleared: string)
    requires |cleared| == |raw| && forall i | 0 <= i < |raw| :: cleared[i] == Cleared(raw[i])
    ensures Tokens(raw) == Words(cleared)
  {
    TokensAreSettled(raw);
    SqueezedAndBlanked(Undotted(Lower(raw)), PUNCTUATION);
    assert Blanked(Undotted(Lower(raw)), PUNCTUATION) == cleared;
  }

  // Two spellings that differ only in the case of letters and in which separator stands between words are one
  // company.
  lemma SpellingsShareAKey(table: seq<string>, a: string, b: string)
    requires SpelledAlike(a, b)
    ensures Normalize(table, a) == Normalize(table, b)
  {
    var s := seq(|a|, i requires 0 <= i < |a| => Cleared(a[i]));
    var t := seq(|b|, i requires 0 <= i < |b| => Cleared(b[i]));
    TokensOfCleared(a, s);
    TokensOfCleared(b, t);
    forall i | 0 <= i < |a| ensures s[i] == t[i] || (IsSpace(s[i]) && IsSpace(t[i])) {
      ClearedAlike(a[i], b[i]);
    }
    AnyWhiteSpace(s, t);
    SameKeyIff(table, a, b);
  }

  ghost predicate Embeds(xs: seq<string>, ys: seq<string>) {
    xs == [] || (ys != [] && ((xs[0] == ys[0] && Embeds(xs[1..], ys[1..])) || Embeds(xs, ys[1..])))
  }

  lemma {:induction false} KeptEmbeds(table: seq<string>, ws: seq<string>)
    ensures Embeds(Kept(table, ws), ws)
    ensures forall w | w in ws && !IsSuffix(table, w) :: w in Kept(table, ws)
  {
    if ws != [] {
      KeptEmbeds(table, ws[1..]);
      if !IsSuffix(table, ws[0]) {
        assert Kept(table, ws)[1..] == Kept(table, ws[1..]);
      }
    }
  }

  ghost predicate OnlySuffixes(table: seq<string>, ws: seq<string>) {
    forall w | w in ws :: IsSuffix(table, w)
  }

  lemma {:induction false} NothingKeptIff(table: seq<string>, ws: seq<string>)
    ensures Kept(table, ws) == [] <==> OnlySuffixes(table, ws)
  {
    if ws != [] {
      NothingKeptIff(table, ws[1..]);
      assert ws[0] in ws && forall w | w in ws[1..] :: w in ws;
    }
  }

  // The key's words are the name's words in their order, and no suffix is among them
  // unless the name has no other word; every word that is not a suffix is there.
  lemma KeyWordsAreKept(table: seq<string>, raw: string)
    ensures Embeds(Words(Normalize(table, raw)), Tokens(raw))
    ensures forall w | w in Tokens(raw) && !IsSuffix(table, w) :: w in Words(Normalize(table, raw))
    ensures forall w | w in Words(Normalize(table, raw)) && IsSuffix(table, w) :: OnlySuffixes(table, Tokens(raw))
  {
    NormalizeIsJoin(table, raw);
    KeptEmbeds(table, Tokens(raw));
    EmbedsItself(Tokens(raw));
    NothingKeptIff(table, Tokens(raw));
  }

  lemma {:induction false} EmbedsItself(ws: seq<string>)
    ensures Embeds(ws, ws)
  {
    if ws != [] {
      EmbedsItself(ws[1..]);
    }
  }

  lemma {:induction false} SqueezeOfSplit(s: string, t: string, drop: set<char>)
    requires t != "" && t[0] !in drop
    ensures Squeeze(s + t, drop) == Squeeze(s, drop) + Squeeze(t, drop)
    decreases |s|, 1
  {
    if s == "" {
      assert s + t == t;
    } else if s[0] in drop {
      SqueezeOfRun(s, t, drop);
    } else {
      assert (s + t)[1..] == s[1..] + t;
      SqueezeOfSplit(s[1..], t, drop);
    }
  }

  lemma {:induction false} SqueezeOfRun(s: string, t: string, drop: set<char>)
    requires t != "" && t[0] !in drop && s != "" && s[0] in drop
    ensures Squeeze(s + t, drop) == Squeeze(s, drop) + Squeeze(t, drop)
    decreases |s|, 0
  {
    var n := Leading(s, drop);
    LeadingOfSplit(s, t, drop);
    assert (s + t)[n..] == s[n..] + t;
    SqueezeOfSplit(s[n..], t, drop);
  }

  lemma {:induction false} LeadingOfSplit(s: string, t: string, drop: set<char>)
    requires t != "" && t[0] !in drop
    ensures Leading(s + t, drop) == Leading(s, drop)
  {
    if s == "" {
      assert s + t == t;
    } else {
      assert (s + t)[1..] == s[1..] + t;
      LeadingOfSplit(s[1..], t, drop);
    }
  }

  lemma TokensOfAppended(raw: string, text: string)
    ensures Tokens(raw + " " + text) == Tokens(raw) + Tokens(text)
  {
    var a, b := Undotted(Lower(raw)), Undotted(Lower(text));
    assert Undotted(Lower(raw + " " + text)) == a + (" " + b);
    SqueezeOfSplit(a, " " + b, PUNCTUATION);
    assert (" " + b)[1..] == b;
    var t := " " + Squeeze(b, PUNCTUATION);
    assert Squeeze(" " + b, PUNCTUATION) == t;
    WordsOfSplit(Squeeze(a, PUNCTUATION), t);
    WordsAfterSpace(t);
    assert t[1..] == Squeeze(b, PUNCTUATION);
    TokensAreSettled(raw);
    TokensAreSettled(text);
    TokensAreSettled(raw + " " + text);
  }

  lemma {:induction false} KeptOfAppended(table: seq<string>, xs: seq<string>, ys: seq<string>)
    ensures Kept(table, xs + ys) == Kept(table, xs) + Kept(table, ys)
  {
    if xs == [] {
      assert xs + ys == ys;
    } else {
      assert (xs + ys)[1..] == xs[1..] + ys;
      KeptOfAppended(table, xs[1..], ys);
    }
  }

  // What follows a proper name leaves the key alone exactly when each of its tokens is a suffix by itself.
  lemma AppendedIsIgnoredIff(table: seq<string>, raw: string, text: string)
    requires !OnlySuffixes(table, Tokens(raw))
    ensures Normalize(table, raw + " " + text) == Normalize(table, raw) <==> OnlySuffixes(table, Tokens(text))
  {
    TokensOfAppended(raw, text);
    KeptOfAppended(table, Tokens(raw), Tokens(text));
    SameKeyIff(table, raw + " " + text, raw);
    NothingKeptIff(table, Tokens(raw));
    NothingKeptIff(table, Tokens(text));
    KeyWordsOfAppended(table, raw, raw + " " + text, Tokens(text));
  }

  lemma KeyWordsOfAppended(table: seq<string>, raw: string, whole: string, more: seq<string>)
    requires Kept(table, Tokens(raw)) != []
    requires Kept(table, Tokens(whole)) == Kept(table, Tokens(raw)) + Kept(table, more)
    ensures KeyWords(table, whole) == KeyWords(table, raw) <==> Kept(table, more) == []
  {
    assert KeyWords(table, whole) == Kept(table, Tokens(whole)) && KeyWords(table, raw) == Kept(table, Tokens(raw));
    if Kept(table, more) != [] {
      assert |Kept(table, Tokens(whole))| > |Kept(table, Tokens(raw))|;
    }
  }

  // -------- The entries of the suffix table --------

  predicate IsLetters(w: string) {
    w != "" && forall c | c in w :: 'a' <= c <= 'z'
  }

  lemma TokensOfLetters(w: string)
    requires IsLetters(w)
    ensures Tokens(w) == [w]
  {
    assert Join([w]) == w;
    TokensOfJoin([w]);
  }

  predicate Cut(e: string, w: string) {
    IsLetters(w) && |w| < |e| && e[..|w|] == w && (e[|w|] == '.' || e[|w|] == ' ')
  }

  lemma BlankedFrom(e: string, w: string)
    requires Cut(e, w)
    ensures Undotted(Lower(e)) == w + (" " + Undotted(Lower(e[|w| + 1..])))
  {
    var s := Undotted(Lower(e));
    forall i | 0 <= i < |w|
      ensures s[i] == w[i]
    {
      assert w[i] in w && e[i] == w[i];
    }
    assert s[..|w|] == w;
    assert s[|w|] == ' ';
    assert s[|w| + 1..] == Undotted(Lower(e[|w| + 1..]));
    assert s == s[..|w|] + ([s[|w|]] + s[|w| + 1..]);
  }

  lemma LettersAreKept(w: string)
    requires IsLetters(w)
    ensures IsWord(w) && Squeeze(w, PUNCTUATION) == w
  {
    forall c | c in w
      ensures c !in PUNCTUATION && !IsSpace(c)
    {
      LetterIsPlain(c);
    }
    SqueezeNothing(w, PUNCTUATION);
  }

  lemma LetterIsPlain(c: char)
    requires 'a' <= c <= 'z'
    ensures c !in PUNCTUATION && !IsSpace(c)
  {
  }

  lemma SpaceIsKept(t: string)
    requires t != "" && t[0] == ' '
    ensures Squeeze(t, PUNCTUATION) != "" && Squeeze(t, PUNCTUATION)[0] == ' '
  {
  }

  lemma WordThenSpace(w: string, t: string)
    requires IsLetters(w) && t != "" && t[0] == ' '
    ensures Words(Squeeze(w + t, PUNCTUATION)) == [w] + Words(Squeeze(t, PUNCTUATION))
  {
    LettersAreKept(w);
    SpaceIsKept(t);
    SqueezeOfSplit(w, t, PUNCTUATION);
    WordsAfterWord(w, Squeeze(t, PUNCTUATION));
  }

  lemma FirstToken(e: string, w: string)
    requires Cut(e, w)
    ensures Tokens(e) != [] && Tokens(e)[0] == w
  {
    BlankedFrom(e, w);
    WordThenSpace(w, " " + Undotted(Lower(e[|w| + 1..])));
    TokensAreSettled(e);
  }

  lemma LetterEntries()
    ensures IsLetters(COMPANY_SUFFIXES[0]) && IsLetters(COMPANY_SUFFIXES[1])
    ensures IsLetters(COMPANY_SUFFIXES[2]) && IsLetters(COMPANY_SUFFIXES[3])
  {
  }

  lemma MoreLetterEntries()
    ensures IsLetters(COMPANY_SUFFIXES[4]) && IsLetters(COMPANY_SUFFIXES[5])
    ensures IsLetters(COMPANY_SUFFIXES[6]) && IsLetters(COMPANY_SUFFIXES[7])
    ensures IsLetters(COMPANY_SUFFIXES[8])
  {
  }

  lemma LastLetterEntries()
    ensures IsLetters(COMPANY_SUFFIXES[10]) && IsLetters(COMPANY_SUFFIXES[12])
    ensures IsLetters(COMPANY_SUFFIXES[13]) && IsLetters(COMPANY_SUFFIXES[16])
    ensures IsLetters(COMPANY_SUFFIXES[17])
  {
  }

  lemma InitialEntries()
    ensures Cut(COMPANY_SUFFIXES[9], "l") && Cut(COMPANY_SUFFIXES[11], "l")
    ensures Cut(COMPANY_SUFFIXES[14], "s") && Cut(COMPANY_SUFFIXES[15], "s")
    ensures Cut(COMPANY_SUFFIXES[18], "b")
  {
  }

  lemma SpacedEntries()
    ensures Cut(COMPANY_SUFFIXES[19], "pty") && Cut(COMPANY_SUFFIXES[20], "pty")
    ensures Cut(COMPANY_SUFFIXES[21], "pte") && Cut(COMPANY_SUFFIXES[22], "pte")
  {
  }

  lemma LettersKeepTheirEnd(w: string)
    requires IsLetters(w)
    ensures IsSuffix(COMPANY_SUFFIXES, w) <==> w in COMPANY_SUFFIXES
  {
    assert w[|w| - 1] in w;
    assert Trailing(w, {'.'}) == 0;
    assert w[..|w|] == w;
  }

  lemma PtyIsNoSuffix()
    ensures !IsSuffix(COMPANY_SUFFIXES, "pty")
  {
    LettersKeepTheirEnd("pty");
  }

  lemma PteIsNoSuffix()
    ensures !IsSuffix(COMPANY_SUFFIXES, "pte")
  {
    LettersKeepTheirEnd("pte");
  }

  lemma OneLetterIsNoSuffix(w: string)
    requires IsLetters(w) && |w| == 1
    ensures !IsSuffix(COMPANY_SUFFIXES, w)
  {
    LettersKeepTheirEnd(w);
    assert forall i | 0 <= i < |COMPANY_SUFFIXES| :: |COMPANY_SUFFIXES[i]| > 1;
  }

  // Every entry is one word of plain letters, or starts with letters that are no suffix.
  lemma EntryShapes(e: string) returns (w: string)
    requires e in COMPANY_SUFFIXES
    ensures IsLetters(e) || (Cut(e, w) && !IsSuffix(COMPANY_SUFFIXES, w))
  {
    w := "l";
    var i: nat :| i < |COMPANY_SUFFIXES| && COMPANY_SUFFIXES[i] == e;
    if i in {9, 11} {
      InitialEntries();
      OneLetterIsNoSuffix(COMPANY_SUFFIXES[i][..1]);
    } else if i in {14, 15} {
      InitialEntries();
      OneLetterIsNoSuffix(COMPANY_SUFFIXES[i][..1]);
      w := "s";
    } else if i == 18 {
      InitialEntries();
      OneLetterIsNoSuffix(COMPANY_SUFFIXES[i][..1]);
      w := "b";
    } else if i in {19, 20} {
      SpacedEntries();
      PtyIsNoSuffix();
      w := "pty";
    } else if i in {21, 22} {
      SpacedEntries();
      PteIsNoSuffix();
      w := "pte";
    } else {
      LetterEntries();
      MoreLetterEntries();
      LastLetterEntries();
    }
  }

  // Of the table's own entries, behind a proper name only those of plain letters are ignored:
  // an entry with a dot or a space in it leaves part of itself in the key.
  lemma EntryIsIgnoredIff(raw: string, e: string)
    requires e in COMPANY_SUFFIXES && !OnlySuffixes(COMPANY_SUFFIXES, Tokens(raw))
    ensures Normalize(COMPANY_SUFFIXES, raw + " " + e) == Normalize(COMPANY_SUFFIXES, raw) <==> '.' !in e && ' ' !in e
  {
    AppendedIsIgnoredIff(COMPANY_SUFFIXES, raw, e);
    var w := EntryShapes(e);
    if IsLetters(e) {
      TokensOfLetters(e);
      assert OnlySuffixes(COMPANY_SUFFIXES, Tokens(e));
    } else {
      FirstToken(e, w);
      assert Tokens(e)[0] in Tokens(e);
      assert e[|w|] in e;
    }
  }
}
