/** Preparation of a segment's text for the speech engine (`preprocessTextForSpeech`).
    Every step is a literal substitution; the engine cannot take SSML, so pauses
    are written as ideographic spaces. */
module SpeechText {

  /** U+3000, the character the script inserts as a pause. */
  const PauseMark: char := '　'

  /** The trailing pause appended to a heading. */
  const HeadingPause: string := "　　　"

  const HeadingKind: string := "heading"

  /** `\d` of a JavaScript regular expression: an ASCII digit. */
  predicate IsDigit(c: char) {
    '0' <= c <= '9'
  }

  predicate NoDigits(s: string) {
    forall i :: 0 <= i < |s| ==> !IsDigit(s[i])
  }

  /** `s.replace(/c/g, rep)` for a single literal character `c`. */
  function ReplaceChar(s: string, c: char, rep: string): (r: string)
    ensures c !in s ==> r == s
  {
    if s == [] then []
    else (if s[0] == c then rep else [s[0]]) + ReplaceChar(s[1..], c, rep)
  }

  /** The two pause steps: after `、` and `。`, then around `「` and `」`. */
  function InsertPauses(s: string): (r: string)
    ensures '、' !in s && '。' !in s && '「' !in s && '」' !in s ==> r == s
  {
    var t := ReplaceChar(s, '、', "、　");
    var t := ReplaceChar(t, '。', "。　　");
    var t := ReplaceChar(t, '「', "　「");
    ReplaceChar(t, '」', "」　")
  }

  /** `s.replace(/(\d+)c/g, '$1' + reading)`: a counter character `c` directly
      after an ASCII digit becomes `reading`, the digits stay. */
  function ExpandCounter(s: string, c: char, reading: string): (r: string)
    ensures c !in s || NoDigits(s) ==> r == s
    decreases |s|
  {
    if |s| < 2 then s
    else if IsDigit(s[0]) && s[1] == c then [s[0]] + reading + ExpandCounter(s[2..], c, reading)
    else [s[0]] + ExpandCounter(s[1..], c, reading)
  }

  /** The three counter rules, in the script's order: year, company count, day count. */
  function ExpandNumerals(s: string): (r: string)
    ensures NoDigits(s) ==> r == s
  {
    var t := ExpandCounter(s, '年', "ねん");
    var t := ExpandCounter(t, '社', "しゃ");
    ExpandCounter(t, '日', "にち")
  }

  /** `preprocessTextForSpeech(text, type)`. */
  function PrepareSpeechText(text: string, kind: string): (r: string)
    ensures kind == HeadingKind ==> |r| >= |HeadingPause| && r[|r| - |HeadingPause|..] == HeadingPause
    ensures '、' !in text && '。' !in text && '「' !in text && '」' !in text && NoDigits(text) ==>
              r == if kind == HeadingKind then text + HeadingPause else text
  {
    var t := ExpandNumerals(InsertPauses(text));
    if kind == HeadingKind then t + HeadingPause else t
  }

  // ---------------------------------------------------------------------------
  // The heading rule

  /** A heading is spoken as the same text of any other kind followed by exactly
      three pause characters. */
  lemma HeadingAddsTrailingPause(text: string, other: string)
    requires other != HeadingKind
    ensures PrepareSpeechText(text, HeadingKind) == PrepareSpeechText(text, other) + HeadingPause
  {
  }

  // ---------------------------------------------------------------------------
  // The pause steps only insert pauses

  /** The text with every pause character removed. */
  function StripPauses(s: string): (r: string)
    ensures PauseMark !in r
    ensures PauseMark !in s ==> r == s
  {
    if s == [] then []
    else (if s[0] == PauseMark then [] else [s[0]]) + StripPauses(s[1..])
  }

  lemma {:induction false} StripPausesAppend(a: string, b: string)
    ensures StripPauses(a + b) == StripPauses(a) + StripPauses(b)
  {
    if a != [] {
      assert (a + b)[0] == a[0] && (a + b)[1..] == a[1..] + b;
      StripPausesAppend(a[1..], b);
    } else {
      assert a + b == b;
    }
  }

  /** Replacing `c` by a string that is `c` padded with pauses changes the text
      only by pauses. */
  lemma {:induction false} ReplaceCharOnlyAddsPauses(s: string, c: char, rep: string)
    requires StripPauses(rep) == StripPauses([c])
    ensures StripPauses(ReplaceChar(s, c, rep)) == StripPauses(s)
  {
    if s != [] {
      var head := if s[0] == c then rep else [s[0]];
      StripPausesAppend(head, ReplaceChar(s[1..], c, rep));
      ReplaceCharOnlyAddsPauses(s[1..], c, rep);
      assert s == [s[0]] + s[1..];
      StripPausesAppend([s[0]], s[1..]);
    }
  }

  /** Removing the pause characters from the output of the punctuation steps
      gives back the input with its own pause characters removed: those steps
      insert pauses and change nothing else. */
  lemma InsertPausesOnlyAddsPauses(s: string)
    ensures StripPauses(InsertPauses(s)) == StripPauses(s)
  {
    var t1 := ReplaceChar(s, '、', "、　");
    var t2 := ReplaceChar(t1, '。', "。　　");
    var t3 := ReplaceChar(t2, '「', "　「");
    ReplaceCharOnlyAddsPauses(s, '、', "、　");
    ReplaceCharOnlyAddsPauses(t1, '。', "。　　");
    ReplaceCharOnlyAddsPauses(t2, '「', "　「");
    ReplaceCharOnlyAddsPauses(t3, '」', "」　");
  }

  // ---------------------------------------------------------------------------
  // Where the pauses go

  /** What the punctuation steps make of one character. */
  function Padded(x: char): string {
    if x == '、' then "、　"
    else if x == '。' then "。　　"
    else if x == '「' then "　「"
    else if x == '」' then "」　"
    else [x]
  }

  /** The text with each character replaced by its padded form, in one pass. */
  function PaddedEach(s: string): string {
    if s == [] then [] else Padded(s[0]) + PaddedEach(s[1..])
  }

  /** A global replacement works piece by piece. */
  lemma {:induction false} ReplaceCharAppend(a: string, b: string, c: char, rep: string)
    ensures ReplaceChar(a + b, c, rep) == ReplaceChar(a, c, rep) + ReplaceChar(b, c, rep)
  {
    if a == [] {
      assert a + b == b;
    } else {
      assert (a + b)[0] == a[0] && (a + b)[1..] == a[1..] + b;
      ReplaceCharAppend(a[1..], b, c, rep);
    }
  }

  /** A single character becomes `rep` exactly when it is `c`. */
  lemma ReplaceCharSingle(x: char, c: char, rep: string)
    ensures ReplaceChar([x], c, rep) == if x == c then rep else [x]
  {
  }

  lemma InsertPausesAppend(a: string, b: string)
    ensures InsertPauses(a + b) == InsertPauses(a) + InsertPauses(b)
  {
    var a1, b1 := ReplaceChar(a, '、', "、　"), ReplaceChar(b, '、', "、　");
    var a2, b2 := ReplaceChar(a1, '。', "。　　"), ReplaceChar(b1, '。', "。　　");
    var a3, b3 := ReplaceChar(a2, '「', "　「"), ReplaceChar(b2, '「', "　「");
    ReplaceCharAppend(a, b, '、', "、　");
    ReplaceCharAppend(a1, b1, '。', "。　　");
    ReplaceCharAppend(a2, b2, '「', "　「");
    ReplaceCharAppend(a3, b3, '」', "」　");
  }

  lemma InsertPausesSingle(x: char)
    ensures InsertPauses([x]) == Padded(x)
  {
    ReplaceCharSingle(x, '、', "、　");
    ReplaceCharSingle(x, '。', "。　　");
    ReplaceCharSingle(x, '「', "　「");
    ReplaceCharSingle(x, '」', "」　");
  }

  /** The four successive replacements equal one pass that pads each
      character on its own: no replacement text holds a character that a later
      step replaces. */
  lemma {:induction false} InsertPausesIsPerCharacter(s: string)
    ensures InsertPauses(s) == PaddedEach(s)
  {
    if s != [] {
      assert s == [s[0]] + s[1..];
      InsertPausesAppend([s[0]], s[1..]);
      InsertPausesSingle(s[0]);
      InsertPausesIsPerCharacter(s[1..]);
    }
  }

  /** Each character is padded in place, whatever surrounds it: a `、` becomes
      `、　`, a `。` becomes `。　　`, a `「` becomes `　「`, a `」` becomes `」　`. */
  lemma InsertPausesAt(before: string, x: char, after: string)
    ensures InsertPauses(before + [x] + after) == InsertPauses(before) + Padded(x) + InsertPauses(after)
  {
    InsertPausesAppend(before + [x], after);
    InsertPausesAppend(before, [x]);
    InsertPausesSingle(x);
  }

  /** Every occurrence of `c` in `s` is directly followed by `pause`. */
  predicate FollowedBy(s: string, c: char, pause: string) {
    forall i :: 0 <= i < |s| && s[i] == c ==> i + 1 + |pause| <= |s| && s[i + 1..i + 1 + |pause|] == pause
  }

  lemma FollowedByAppend(a: string, b: string, c: char, pause: string)
    requires FollowedBy(a, c, pause) && FollowedBy(b, c, pause)
    ensures FollowedBy(a + b, c, pause)
  {
    var ab := a + b;
    forall i | 0 <= i < |ab| && ab[i] == c
      ensures i + 1 + |pause| <= |ab| && ab[i + 1..i + 1 + |pause|] == pause
    {
      if i < |a| {
        assert a[i] == c;
        assert ab[i + 1..i + 1 + |pause|] == a[i + 1..i + 1 + |pause|];
      } else {
        assert b[i - |a|] == c;
        assert ab[i + 1..i + 1 + |pause|] == b[i - |a| + 1..i - |a| + 1 + |pause|];
      }
    }
  }

  /** A property every padded character has holds of the whole padded text. */
  lemma {:induction false} PaddedEachFollowedBy(s: string, c: char, pause: string)
    requires forall x :: FollowedBy(Padded(x), c, pause)
    ensures FollowedBy(PaddedEach(s), c, pause)
  {
    if s != [] {
      PaddedEachFollowedBy(s[1..], c, pause);
      FollowedByAppend(Padded(s[0]), PaddedEach(s[1..]), c, pause);
    }
  }

  lemma PaddedFollowedBy(x: char)
    ensures FollowedBy(Padded(x), '、', [PauseMark])
    ensures FollowedBy(Padded(x), '。', [PauseMark, PauseMark])
    ensures FollowedBy(Padded(x), '」', [PauseMark])
  {
    var p := Padded(x);
    if x == '、' {
      assert p[1..2] == [PauseMark];
    } else if x == '。' {
      assert p[1..3] == [PauseMark, PauseMark];
    } else if x == '」' {
      assert p[1..2] == [PauseMark];
    }
  }

  /** Every occurrence of `c` in `s` directly follows `mark`. */
  predicate PrecededBy(s: string, c: char, mark: char) {
    forall i :: 0 <= i < |s| && s[i] == c ==> 0 < i && s[i - 1] == mark
  }

  lemma PrecededByAppend(a: string, b: string, c: char, mark: char)
    requires PrecededBy(a, c, mark) && PrecededBy(b, c, mark)
    ensures PrecededBy(a + b, c, mark)
  {
    var ab := a + b;
    forall i | 0 <= i < |ab| && ab[i] == c
      ensures 0 < i && ab[i - 1] == mark
    {
      if i < |a| {
        assert a[i] == c;
      } else {
        assert b[i - |a|] == c;
      }
    }
  }

  lemma {:induction false} PaddedEachPrecededBy(s: string, c: char, mark: char)
    requires forall x :: PrecededBy(Padded(x), c, mark)
    ensures PrecededBy(PaddedEach(s), c, mark)
  {
    if s != [] {
      PaddedEachPrecededBy(s[1..], c, mark);
      PrecededByAppend(Padded(s[0]), PaddedEach(s[1..]), c, mark);
    }
  }

  /** In the output of the punctuation steps every `、` and every `」` is
      directly followed by a pause, every `。` by two, and every `「` directly
      follows a pause. */
  lemma PunctuationIsFollowedByPauses(s: string)
    ensures FollowedBy(InsertPauses(s), '、', [PauseMark])
    ensures FollowedBy(InsertPauses(s), '。', [PauseMark, PauseMark])
    ensures FollowedBy(InsertPauses(s), '」', [PauseMark])
    ensures PrecededBy(InsertPauses(s), '「', PauseMark)
  {
    InsertPausesIsPerCharacter(s);
    forall x ensures PrecededBy(Padded(x), '「', PauseMark) {
      if x == '「' { assert Padded(x) == [PauseMark, '「']; }
    }
    PaddedEachPrecededBy(s, '「', PauseMark);
    forall x ensures FollowedBy(Padded(x), '、', [PauseMark]) { PaddedFollowedBy(x); }
    forall x ensures FollowedBy(Padded(x), '。', [PauseMark, PauseMark]) { PaddedFollowedBy(x); }
    forall x ensures FollowedBy(Padded(x), '」', [PauseMark]) { PaddedFollowedBy(x); }
    PaddedEachFollowedBy(s, '、', [PauseMark]);
    PaddedEachFollowedBy(s, '。', [PauseMark, PauseMark]);
    PaddedEachFollowedBy(s, '」', [PauseMark]);
  }

  // ---------------------------------------------------------------------------
  // The counter rules, position by position

  /** What the regular expression makes of the character at `k`: a counter
      preceded by a digit becomes its reading, any other character stays. */
  function PieceAt(s: string, k: nat, c: char, reading: string): string
    requires k < |s|
  {
    if 0 < k && IsDigit(s[k - 1]) && s[k] == c then reading else [s[k]]
  }

  /** The pieces of positions `k`, `k + 1`, ... of `s`, concatenated. */
  function PiecesFrom(s: string, k: nat, c: char, reading: string): string
    requires k <= |s|
    decreases |s| - k
  {
    if k == |s| then [] else PieceAt(s, k, c, reading) + PiecesFrom(s, k + 1, c, reading)
  }

  lemma {:induction false} ExpandCounterPieces(s: string, k: nat, c: char, reading: string)
    requires k <= |s| && !IsDigit(c)
    requires 0 < k < |s| ==> !IsDigit(s[k - 1]) || s[k] != c
    ensures ExpandCounter(s[k..], c, reading) == PiecesFrom(s, k, c, reading)
    decreases |s| - k
  {
    var t := s[k..];
    if k == |s| {
      assert t == [];
    } else if k + 1 == |s| {
      assert t == [s[k]];
      assert PieceAt(s, k, c, reading) == [s[k]];
      assert PiecesFrom(s, k + 1, c, reading) == [];
    } else {
      assert t[0] == s[k] && t[1] == s[k + 1];
      assert PieceAt(s, k, c, reading) == [s[k]];
      if IsDigit(s[k]) && s[k + 1] == c {
        assert t[2..] == s[k + 2..];
        ExpandCounterPieces(s, k + 2, c, reading);
        assert PieceAt(s, k + 1, c, reading) == reading;
        calc {
          PiecesFrom(s, k, c, reading);
          [s[k]] + PiecesFrom(s, k + 1, c, reading);
          [s[k]] + (reading + PiecesFrom(s, k + 2, c, reading));
          [s[k]] + reading + ExpandCounter(t[2..], c, reading);
          ExpandCounter(t, c, reading);
        }
      } else {
        assert t[1..] == s[k + 1..];
        ExpandCounterPieces(s, k + 1, c, reading);
        assert ExpandCounter(t, c, reading) == [s[k]] + ExpandCounter(t[1..], c, reading);
      }
    }
  }

  /** One counter rule replaces exactly the counters that follow an ASCII digit
      by their reading and keeps every other character, in order. */
  lemma ExpandCounterIsPositional(s: string, c: char, reading: string)
    requires !IsDigit(c)
    ensures ExpandCounter(s, c, reading) == PiecesFrom(s, 0, c, reading)
  {
    assert s[0..] == s;
    ExpandCounterPieces(s, 0, c, reading);
  }

  // ---------------------------------------------------------------------------
  // No digit is left in front of a counter

  /** No ASCII digit of `s` is immediately followed by `c`. */
  predicate NoDigitBefore(s: string, c: char) {
    forall i :: 0 <= i < |s| - 1 ==> !(IsDigit(s[i]) && s[i + 1] == c)
  }

  lemma NoDigitBeforeAppend(a: string, b: string, c: char)
    requires NoDigitBefore(a, c) && NoDigitBefore(b, c)
    requires a != [] && b != [] ==> !(IsDigit(a[|a| - 1]) && b[0] == c)
    ensures NoDigitBefore(a + b, c)
  {
    var ab := a + b;
    forall i | 0 <= i < |ab| - 1
      ensures !(IsDigit(ab[i]) && ab[i + 1] == c)
    {
      if i + 1 < |a| {
        assert ab[i] == a[i] && ab[i + 1] == a[i + 1];
      } else if i >= |a| {
        assert ab[i] == b[i - |a|] && ab[i + 1] == b[i + 1 - |a|];
      }
    }
  }

  lemma ExpandCounterHead(s: string, c: char, reading: string)
    requires s != []
    ensures ExpandCounter(s, c, reading) != [] && ExpandCounter(s, c, reading)[0] == s[0]
  {
  }

  /** After one rule, no digit is followed by that rule's counter. */
  lemma {:induction false} ExpandCounterRemovesPairs(s: string, c: char, reading: string)
    requires reading != [] && NoDigits(reading) && reading[0] != c
    ensures NoDigitBefore(ExpandCounter(s, c, reading), c)
    decreases |s|
  {
    if |s| >= 2 {
      if IsDigit(s[0]) && s[1] == c {
        var rest := ExpandCounter(s[2..], c, reading);
        ExpandCounterRemovesPairs(s[2..], c, reading);
        NoDigitBeforeAppend(reading, rest, c);
        NoDigitBeforeAppend([s[0]], reading + rest, c);
        assert [s[0]] + reading + rest == [s[0]] + (reading + rest);
      } else {
        var rest := ExpandCounter(s[1..], c, reading);
        ExpandCounterRemovesPairs(s[1..], c, reading);
        ExpandCounterHead(s[1..], c, reading);
        NoDigitBeforeAppend([s[0]], rest, c);
      }
    }
  }

  /** A later rule does not bring back a digit-counter pair that an earlier
      rule removed, because no reading contains a digit. */
  lemma {:induction false} ExpandCounterKeepsClean(s: string, c: char, reading: string, other: char)
    requires reading != [] && NoDigits(reading) && reading[0] != other
    requires NoDigitBefore(s, other)
    ensures NoDigitBefore(ExpandCounter(s, c, reading), other)
    decreases |s|
  {
    if |s| >= 2 {
      if IsDigit(s[0]) && s[1] == c {
        var rest := ExpandCounter(s[2..], c, reading);
        ExpandCounterKeepsClean(s[2..], c, reading, other);
        NoDigitBeforeAppend(reading, rest, other);
        NoDigitBeforeAppend([s[0]], reading + rest, other);
        assert [s[0]] + reading + rest == [s[0]] + (reading + rest);
      } else {
        var rest := ExpandCounter(s[1..], c, reading);
        assert NoDigitBefore(s[1..], other) by {
          forall i | 0 <= i < |s[1..]| - 1 ensures !(IsDigit(s[1..][i]) && s[1..][i + 1] == other) {
            assert s[1..][i] == s[i + 1] && s[1..][i + 1] == s[i + 2];
          }
        }
        ExpandCounterKeepsClean(s[1..], c, reading, other);
        ExpandCounterHead(s[1..], c, reading);
        assert !(IsDigit(s[0]) && s[1] == other);
        NoDigitBeforeAppend([s[0]], rest, other);
      }
    }
  }

  /** In the prepared text of any segment, no ASCII digit is directly followed
      by 年, 社 or 日. */
  lemma PreparedTextHasNoDigitCounterPair(text: string, kind: string)
    ensures NoDigitBefore(PrepareSpeechText(text, kind), '年')
    ensures NoDigitBefore(PrepareSpeechText(text, kind), '社')
    ensures NoDigitBefore(PrepareSpeechText(text, kind), '日')
  {
    var t0 := InsertPauses(text);
    var t1 := ExpandCounter(t0, '年', "ねん");
    var t2 := ExpandCounter(t1, '社', "しゃ");
    var t3 := ExpandCounter(t2, '日', "にち");
    ExpandCounterRemovesPairs(t0, '年', "ねん");
    ExpandCounterKeepsClean(t1, '社', "しゃ", '年');
    ExpandCounterKeepsClean(t2, '日', "にち", '年');
    ExpandCounterRemovesPairs(t1, '社', "しゃ");
    ExpandCounterKeepsClean(t2, '日', "にち", '社');
    ExpandCounterRemovesPairs(t2, '日', "にち");
    if kind == HeadingKind {
      NoDigitBeforeAppend(t3, HeadingPause, '年');
      NoDigitBeforeAppend(t3, HeadingPause, '社');
      NoDigitBeforeAppend(t3, HeadingPause, '日');
    }
  }
}
