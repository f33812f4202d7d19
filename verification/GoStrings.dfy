/**
 The part of Go's `strings` package the program relies on, defined over
 sequences of Unicode scalar values.  White space is Unicode's White_Space
 property; case folding is ASCII only and leaves every other character alone.
 */
module GoStrings {

  predicate IsSpace(c: char) {
    || '\t' <= c <= '\r' || c == ' '
    || c == '\U{0085}' || c == '\U{00A0}' || c == '\U{1680}'
    || '\U{2000}' <= c <= '\U{200A}'
    || c == '\U{2028}' || c == '\U{2029}' || c == '\U{202F}' || c == '\U{205F}' || c == '\U{3000}'
  }

  predicate NoSpace(s: string) {
    forall i | 0 <= i < |s| :: !IsSpace(s[i])
  }

  /** A field as `strings.Fields` returns it. */
  predicate IsWord(s: string) {
    s != "" && NoSpace(s)
  }

  predicate AllWords(words: seq<string>) {
    forall i | 0 <= i < |words| :: IsWord(words[i])
  }

  // ---------- trimming ----------

  function TrimLeft(s: string): string {
    if s != "" && IsSpace(s[0]) then TrimLeft(s[1..]) else s
  }

  function TrimRight(s: string): string {
    if s != "" && IsSpace(s[|s| - 1]) then TrimRight(s[..|s| - 1]) else s
  }

  function TrimSpace(s: string): string {
    TrimRight(TrimLeft(s))
  }

  /** Nothing is left to trim: no white space at either end. */
  predicate IsTrimmed(s: string) {
    s == "" || (!IsSpace(s[0]) && !IsSpace(s[|s| - 1]))
  }

  lemma {:induction false} TrimLeftShape(s: string)
    ensures TrimLeft(s) == "" || !IsSpace(TrimLeft(s)[0])
    ensures forall c | !IsSpace(c) :: c in TrimLeft(s) <==> c in s
  {
    if s != "" && IsSpace(s[0]) {
      TrimLeftShape(s[1..]);
      assert s == [s[0]] + s[1..];
    }
  }

  lemma {:induction false} TrimRightShape(s: string)
    ensures TrimRight(s) <= s
    ensures TrimRight(s) == "" || !IsSpace(TrimRight(s)[|TrimRight(s)| - 1])
    ensures forall c | !IsSpace(c) :: c in TrimRight(s) <==> c in s
  {
    if s != "" && IsSpace(s[|s| - 1]) {
      TrimRightShape(s[..|s| - 1]);
      assert s == s[..|s| - 1] + [s[|s| - 1]];
    }
  }

  predicate AllSpace(s: string) {
    forall i | 0 <= i < |s| :: IsSpace(s[i])
  }

  lemma {:induction false} TrimLeftDrops(s: string)
    ensures |TrimLeft(s)| <= |s| && s[|s| - |TrimLeft(s)|..] == TrimLeft(s) && AllSpace(s[..|s| - |TrimLeft(s)|])
  {
    if s != "" && IsSpace(s[0]) {
      TrimLeftDrops(s[1..]);
      var n := |s| - |TrimLeft(s)|;
      assert s[n..] == s[1..][n - 1..];
      assert forall i | 1 <= i < n :: s[i] == s[1..][..n - 1][i - 1];
    }
  }

  lemma {:induction false} TrimRightDrops(s: string)
    ensures TrimRight(s) <= s && AllSpace(s[|TrimRight(s)|..])
  {
    if s != "" && IsSpace(s[|s| - 1]) {
      var init := s[..|s| - 1];
      TrimRightDrops(init);
      assert forall i | |TrimRight(s)| <= i < |init| :: s[i] == init[|TrimRight(s)|..][i - |TrimRight(s)|];
    }
  }

  /** The result is trimmed, so trimming twice is trimming once. */
  lemma TrimSpaceIdempotent(s: string)
    ensures IsTrimmed(TrimSpace(s))
    ensures TrimSpace(TrimSpace(s)) == TrimSpace(s)
  {
    TrimLeftShape(s);
    TrimRightShape(TrimLeft(s));
  }

  /** What is trimmed is white space at either end, and all of it. */
  lemma TrimSpaceMeaning(s: string) returns (a: string, b: string)
    ensures s == a + TrimSpace(s) + b && AllSpace(a) && AllSpace(b) && IsTrimmed(TrimSpace(s))
  {
    TrimLeftDrops(s);
    TrimRightDrops(TrimLeft(s));
    TrimSpaceIdempotent(s);
    a, b := s[..|s| - |TrimLeft(s)|], TrimLeft(s)[|TrimSpace(s)|..];
  }

  /** A character that is not white space survives trimming. */
  lemma TrimSpaceKeeps(s: string, c: char)
    requires !IsSpace(c)
    ensures c in TrimSpace(s) <==> c in s
  {
    TrimLeftShape(s);
    TrimRightShape(TrimLeft(s));
  }

  // ---------- fields ----------

  /**
   `strings.Fields`, one character at a time: white space is dropped, any other
   character starts a field of its own or extends the one its successor starts.
   */
  function Fields(s: string): (words: seq<string>)
    ensures s != "" && !IsSpace(s[0]) ==> words != []
  {
    if s == "" then [] else
    var rest := Fields(s[1..]);
    if IsSpace(s[0]) then rest
    else if |s| == 1 || IsSpace(s[1]) then [[s[0]]] + rest
    else [[s[0]] + rest[0]] + rest[1..]
  }

  lemma {:induction false} FieldsAreWords(s: string)
    ensures AllWords(Fields(s))
  {
    if s != "" {
      FieldsAreWords(s[1..]);
    }
  }

  /** White space separates: fields never reach across it. */
  lemma {:induction false} FieldsAcrossSpace(a: string, c: char, b: string)
    requires IsSpace(c)
    ensures Fields(a + [c] + b) == Fields(a) + Fields(b)
  {
    var s := a + [c] + b;
    if a == "" {
      assert s[1..] == b;
    } else {
      assert s[1..] == a[1..] + [c] + b;
      FieldsAcrossSpace(a[1..], c, b);
      assert |a| > 1 ==> s[1] == a[1];
    }
  }

  lemma {:induction false} FieldsOfWord(w: string)
    requires IsWord(w)
    ensures Fields(w) == [w]
  {
    assert w == [w[0]] + w[1..];
    if |w| == 1 {
      assert Fields(w[1..]) == [] && w == [w[0]];
    } else {
      FieldsOfWord(w[1..]);
    }
  }

  lemma {:induction false} FieldsTrimLeft(s: string)
    ensures Fields(TrimLeft(s)) == Fields(s)
  {
    if s != "" && IsSpace(s[0]) {
      FieldsTrimLeft(s[1..]);
    }
  }

  lemma {:induction false} FieldsTrimRight(s: string)
    ensures Fields(TrimRight(s)) == Fields(s)
    decreases |s|
  {
    if s != "" && IsSpace(s[|s| - 1]) {
      var init, last := s[..|s| - 1], s[|s| - 1];
      assert s == init + [last] + "";
      FieldsTrimRight(init);
      FieldsAcrossSpace(init, last, "");
    }
  }

  lemma FieldsTrimSpace(s: string)
    ensures Fields(TrimSpace(s)) == Fields(s)
  {
    FieldsTrimRight(TrimLeft(s));
    FieldsTrimLeft(s);
  }

  /** A text is blank exactly when it has no fields. */
  lemma BlankHasNoFields(s: string)
    ensures TrimSpace(s) == "" <==> Fields(s) == []
  {
    FieldsTrimSpace(s);
  }

  // ---------- joining and splitting ----------

  function Join(parts: seq<string>, sep: string): string {
    if parts == [] then ""
    else if |parts| == 1 then parts[0]
    else parts[0] + sep + Join(parts[1..], sep)
  }

  /** Joining words with a space is undone by `Fields`. */
  lemma {:induction false} FieldsOfJoin(words: seq<string>)
    requires AllWords(words)
    ensures Fields(Join(words, " ")) == words
    decreases |words|
  {
    if |words| == 1 {
      FieldsOfWord(words[0]);
    } else if |words| > 1 {
      FieldsOfWord(words[0]);
      FieldsOfJoin(words[1..]);
      FieldsAcrossSpace(words[0], ' ', Join(words[1..], " "));
    }
  }

  function Split(s: string, sep: char): (parts: seq<string>)
    ensures |parts| >= 1
  {
    if s == "" then [""] else
    var rest := Split(s[1..], sep);
    if s[0] == sep then [""] + rest else [[s[0]] + rest[0]] + rest[1..]
  }

  lemma {:induction false} SplitWithout(s: string, sep: char)
    requires sep !in s
    ensures Split(s, sep) == [s]
  {
    if s != "" {
      SplitWithout(s[1..], sep);
      assert [s[0]] + s[1..] == s;
    }
  }

  lemma {:induction false} SplitAtSep(a: string, sep: char, b: string)
    ensures Split(a + [sep] + b, sep) == Split(a, sep) + Split(b, sep)
  {
    var s := a + [sep] + b;
    if a == "" {
      assert s[1..] == b;
    } else {
      assert s[1..] == a[1..] + [sep] + b;
      SplitAtSep(a[1..], sep, b);
    }
  }

  lemma {:induction false} SplitParts(s: string, sep: char)
    ensures forall i | 0 <= i < |Split(s, sep)| :: sep !in Split(s, sep)[i]
  {
    if s != "" {
      SplitParts(s[1..], sep);
    }
  }

  /** Splitting undoes joining when no part contains the separator. */
  lemma {:induction false} SplitOfJoin(parts: seq<string>, sep: char)
    requires parts != []
    requires forall i | 0 <= i < |parts| :: sep !in parts[i]
    ensures Split(Join(parts, [sep]), sep) == parts
  {
    SplitWithout(parts[0], sep);
    if |parts| > 1 {
      SplitOfJoin(parts[1..], sep);
      SplitAtSep(parts[0], sep, Join(parts[1..], [sep]));
    }
  }

  /** Joining undoes splitting, whatever the text. */
  lemma {:induction false} JoinOfSplit(s: string, sep: char)
    ensures Join(Split(s, sep), [sep]) == s
  {
    if s != "" {
      JoinOfSplit(s[1..], sep);
      var rest := Split(s[1..], sep);
      if s[0] == sep {
        assert ([""] + rest)[1..] == rest;
      } else {
        var whole := [[s[0]] + rest[0]] + rest[1..];
        if |rest| > 1 {
          assert whole[1..] == rest[1..];
        }
      }
    }
  }

  /** Trimming the whole text does not change its parts once they are trimmed. */
  ghost predicate SameTrimmed(a: seq<string>, b: seq<string>) {
    |a| == |b| && forall i | 0 <= i < |a| :: TrimSpace(a[i]) == TrimSpace(b[i])
  }

  lemma {:induction false} TrimSpaceDropsLast(s: string, c: char)
    requires IsSpace(c)
    ensures TrimSpace(s + [c]) == TrimSpace(s)
  {
    if s == "" {
      assert ([c])[1..] == "";
    } else if IsSpace(s[0]) {
      assert (s + [c])[1..] == s[1..] + [c];
      TrimSpaceDropsLast(s[1..], c);
    } else {
      assert (s + [c])[..|s|] == s;
    }
  }

  lemma TrimSpaceDropsFirst(c: char, s: string)
    requires IsSpace(c)
    ensures TrimSpace([c] + s) == TrimSpace(s)
  {
    assert ([c] + s)[1..] == s;
  }

  lemma {:induction false} SplitOfTrimLeft(s: string, sep: char)
    requires !IsSpace(sep)
    ensures SameTrimmed(Split(TrimLeft(s), sep), Split(s, sep))
  {
    if s != "" && IsSpace(s[0]) {
      SplitOfTrimLeft(s[1..], sep);
      TrimSpaceDropsFirst(s[0], Split(s[1..], sep)[0]);
    }
  }

  /** A character after the text goes to the end of the last part. */
  function GrowLast(parts: seq<string>, c: char): seq<string>
    requires parts != []
  {
    parts[..|parts| - 1] + [parts[|parts| - 1] + [c]]
  }

  lemma {:induction false} SplitSnoc(s: string, c: char, sep: char)
    requires c != sep
    ensures Split(s + [c], sep) == GrowLast(Split(s, sep), c)
  {
    if s == "" {
      assert s + [c] == [c];
      assert [c][1..] == "" && [c] + "" == [c];
      assert Split([c], sep) == [[c]];
    } else {
      assert (s + [c])[1..] == s[1..] + [c];
      SplitSnoc(s[1..], c, sep);
      var rest := Split(s[1..], sep);
      if s[0] != sep {
        assert [s[0]] + (rest[0] + [c]) == ([s[0]] + rest[0]) + [c];
      }
    }
  }

  lemma GrownLastTrims(a: seq<string>, parts: seq<string>, c: char)
    requires parts != [] && IsSpace(c) && SameTrimmed(a, parts)
    ensures SameTrimmed(a, GrowLast(parts, c))
  {
    TrimSpaceDropsLast(parts[|parts| - 1], c);
  }

  lemma {:induction false} SplitOfTrimRight(s: string, sep: char)
    requires !IsSpace(sep)
    ensures SameTrimmed(Split(TrimRight(s), sep), Split(s, sep))
    decreases |s|
  {
    if s != "" && IsSpace(s[|s| - 1]) {
      var init, last := s[..|s| - 1], s[|s| - 1];
      assert s == init + [last];
      SplitOfTrimRight(init, sep);
      SplitSnoc(init, last, sep);
      GrownLastTrims(Split(TrimRight(init), sep), Split(init, sep), last);
    }
  }

  lemma SplitOfTrimSpace(s: string, sep: char)
    requires !IsSpace(sep)
    ensures SameTrimmed(Split(TrimSpace(s), sep), Split(s, sep))
  {
    SplitOfTrimLeft(s, sep);
    SplitOfTrimRight(TrimLeft(s), sep);
  }

  // ---------- searching and folding ----------

  /** Position of the first occurrence of `c`, or -1. */
  function IndexOf(s: string, c: char): (at: int)
    ensures -1 <= at < |s|
    ensures at == -1 ==> c !in s
    ensures at >= 0 ==> s[at] == c && c !in s[..at]
  {
    if s == "" then -1
    else if s[0] == c then 0
    else
      var k := IndexOf(s[1..], c);
      assert k >= 0 ==> s[..k + 1] == [s[0]] + s[1..][..k];
      if k == -1 then -1 else k + 1
  }

  predicate HasPrefix(s: string, prefix: string) {
    prefix <= s
  }

  predicate Contains(s: string, part: string) {
    exists i | 0 <= i <= |s| :: part <= s[i..]
  }

  function LowerChar(c: char): char {
    if 'A' <= c <= 'Z' then c - 'A' + 'a' else c
  }

  function ToLower(s: string): (r: string)
    ensures |r| == |s|
    ensures forall i | 0 <= i < |s| :: r[i] == LowerChar(s[i])
  {
    seq(|s|, i requires 0 <= i < |s| => LowerChar(s[i]))
  }

  predicate EqualFold(a: string, b: string) {
    ToLower(a) == ToLower(b)
  }

  /** One letter in either case, or one character. */
  predicate SameLetter(a: char, b: char) {
    || a == b
    || ('A' <= a <= 'Z' && b as int == a as int + 32)
    || ('a' <= a <= 'z' && b as int == a as int - 32)
  }

  predicate SameUpToCase(a: string, b: string) {
    |a| == |b| && forall i | 0 <= i < |a| :: SameLetter(a[i], b[i])
  }

  lemma LowerCharMeaning(a: char, b: char)
    ensures LowerChar(a) == LowerChar(b) <==> SameLetter(a, b)
  {
  }

  lemma FoldsAgree(a: string, b: string)
    ensures ToLower(a) == ToLower(b) <==> SameUpToCase(a, b)
  {
    forall x: char, y: char ensures LowerChar(x) == LowerChar(y) <==> SameLetter(x, y) {
      LowerCharMeaning(x, y);
    }
    if ToLower(a) == ToLower(b) {
      forall i | 0 <= i < |a| ensures SameLetter(a[i], b[i]) {
        assert ToLower(a)[i] == ToLower(b)[i];
      }
    }
  }

  predicate HoldsAt(s: string, part: string, i: int) {
    0 <= i <= |s| - |part| && SameUpToCase(s[i..i + |part|], part)
  }

  /** `part` stands somewhere in `s`, up to case. */
  ghost predicate HoldsUpToCase(s: string, part: string) {
    exists i :: HoldsAt(s, part, i)
  }

  lemma LowerHoldsAt(s: string, part: string, i: int)
    requires 0 <= i <= |s|
    ensures ToLower(part) <= ToLower(s)[i..] <==> HoldsAt(s, part, i)
  {
    var ls, lp, n := ToLower(s), ToLower(part), |part|;
    if i <= |s| - n {
      FoldsAgree(s[i..i + n], part);
      assert ls[i..i + n] == ToLower(s[i..i + n]);
      assert ls[i..][..n] == ls[i..i + n];
    }
  }

  lemma ContainsUpToCase(s: string, part: string)
    ensures Contains(ToLower(s), ToLower(part)) <==> HoldsUpToCase(s, part)
  {
    forall i | 0 <= i <= |s| ensures ToLower(part) <= ToLower(s)[i..] <==> HoldsAt(s, part, i) {
      LowerHoldsAt(s, part, i);
    }
    if i :| HoldsAt(s, part, i) {
      assert ToLower(part) <= ToLower(s)[i..];
    }
  }

  /** `strings.ReplaceAll` for one-character patterns. */
  function ReplaceChar(s: string, from: char, to: char): (r: string)
    ensures |r| == |s|
    ensures forall i | 0 <= i < |s| :: r[i] == if s[i] == from then to else s[i]
  {
    seq(|s|, i requires 0 <= i < |s| => if s[i] == from then to else s[i])
  }
}
