/** LIKE matching (ISO/IEC 9075-2, section 8.5) and the escaping that turns it into substring search. */
module Like {

  predicate Special(c: char) {
    c == '%' || c == '_' || c == '\\'
  }

  /** `%` matches any run, `_` any one character, and a backslash takes the next character literally. */
  predicate LikeMatch(text: string, pattern: string)
    decreases |text| + |pattern|
  {
    if pattern == "" then text == ""
    else if pattern[0] == '%' then
      LikeMatch(text, pattern[1..]) || (text != "" && LikeMatch(text[1..], pattern))
    else if pattern[0] == '_' then text != "" && LikeMatch(text[1..], pattern[1..])
    else if pattern[0] == '\\' then
      |pattern| >= 2 && text != "" && text[0] == pattern[1] && LikeMatch(text[1..], pattern[2..])
    else text != "" && text[0] == pattern[0] && LikeMatch(text[1..], pattern[1..])
  }

  /** A one-pass replacement: each special character gains a backslash. */
  function EscapeLike(s: string): string {
    if s == "" then ""
    else (if Special(s[0]) then ['\\', s[0]] else [s[0]]) + EscapeLike(s[1..])
  }

  function ContainsPattern(s: string): string {
    "%" + EscapeLike(s) + "%"
  }

  predicate OccursAt(s: string, text: string, i: int) {
    0 <= i <= |text| - |s| && text[i..i + |s|] == s
  }

  ghost predicate Occurs(s: string, text: string) {
    exists i :: OccursAt(s, text, i)
  }

  lemma {:induction false} PercentMatchesAll(text: string)
    ensures LikeMatch(text, "%")
  {
    if text != "" {
      PercentMatchesAll(text[1..]);
    }
  }

  lemma {:induction false} EscapedIsLiteral(text: string, s: string, rest: string)
    ensures LikeMatch(text, EscapeLike(s) + rest) <==> s <= text && LikeMatch(text[|s|..], rest)
  {
    var pattern := EscapeLike(s) + rest;
    if s == "" {
      assert pattern == rest && text[0..] == text;
    } else {
      var more := EscapeLike(s[1..]) + rest;
      if Special(s[0]) {
        assert pattern == ['\\', s[0]] + more;
        assert pattern[2..] == more;
      } else {
        assert pattern == [s[0]] + more;
        assert pattern[1..] == more;
      }
      if text != "" {
        EscapedIsLiteral(text[1..], s[1..], rest);
        assert s <= text <==> s[0] == text[0] && s[1..] <= text[1..];
        if s <= text {
          assert text[1..][|s| - 1..] == text[|s|..];
        }
      }
    }
  }

  lemma OccursStep(s: string, text: string)
    ensures Occurs(s, text) <==> s <= text || (text != "" && Occurs(s, text[1..]))
  {
    if s <= text {
      assert OccursAt(s, text, 0);
    }
    if text != "" {
      if Occurs(s, text[1..]) {
        var i :| OccursAt(s, text[1..], i);
        assert OccursAt(s, text, i + 1);
      }
      if Occurs(s, text) && !(s <= text) {
        var i :| OccursAt(s, text, i);
        assert i != 0;
        assert OccursAt(s, text[1..], i - 1);
      }
    }
  }

  /** Escaped and wrapped in percent signs, a string matches exactly the texts that contain it. */
  lemma {:induction false} ContainsIsSubstring(text: string, s: string)
    ensures LikeMatch(text, ContainsPattern(s)) <==> Occurs(s, text)
  {
    var pattern := ContainsPattern(s);
    assert pattern[1..] == EscapeLike(s) + "%";
    EscapedIsLiteral(text, s, "%");
    OccursStep(s, text);
    if s <= text {
      PercentMatchesAll(text[|s|..]);
    }
    if text != "" {
      ContainsIsSubstring(text[1..], s);
    }
  }

  // ----- ILIKE -----

  function Fold(fold: char -> char, s: string): (r: string)
    ensures |r| == |s|
  {
    if s == "" then "" else [fold(s[0])] + Fold(fold, s[1..])
  }

  /** A case fold that leaves the special characters alone and produces no new ones. */
  ghost predicate Tame(fold: char -> char) {
    forall c :: (Special(c) ==> fold(c) == c) && (Special(fold(c)) ==> Special(c))
  }

  predicate ILikeMatch(fold: char -> char, text: string, pattern: string) {
    LikeMatch(Fold(fold, text), Fold(fold, pattern))
  }

  lemma {:induction false} FoldAppend(fold: char -> char, a: string, b: string)
    ensures Fold(fold, a + b) == Fold(fold, a) + Fold(fold, b)
  {
    if a == "" {
      assert a + b == b;
    } else {
      assert (a + b)[1..] == a[1..] + b;
      FoldAppend(fold, a[1..], b);
    }
  }

  lemma {:induction false} FoldEscape(fold: char -> char, s: string)
    requires Tame(fold)
    ensures Fold(fold, EscapeLike(s)) == EscapeLike(Fold(fold, s))
  {
    if s != "" {
      var head := if Special(s[0]) then ['\\', s[0]] else [s[0]];
      FoldAppend(fold, head, EscapeLike(s[1..]));
      FoldEscape(fold, s[1..]);
      if Special(s[0]) {
        assert head[1..] == [s[0]];
      }
      assert Fold(fold, head) == if Special(s[0]) then ['\\', s[0]] else [fold(s[0])];
    }
  }

  lemma FoldContainsPattern(fold: char -> char, s: string)
    requires Tame(fold)
    ensures Fold(fold, ContainsPattern(s)) == ContainsPattern(Fold(fold, s))
  {
    var e := EscapeLike(s);
    FoldAppend(fold, "%" + e, "%");
    FoldAppend(fold, "%", e);
    FoldEscape(fold, s);
    assert Fold(fold, "%") == "%";
  }

  /** Case-insensitive search for s finds exactly the texts that contain s up to case. */
  lemma ILikeIsSubstring(fold: char -> char, text: string, s: string)
    requires Tame(fold)
    ensures ILikeMatch(fold, text, ContainsPattern(s)) <==> Occurs(Fold(fold, s), Fold(fold, text))
  {
    FoldContainsPattern(fold, s);
    ContainsIsSubstring(Fold(fold, text), Fold(fold, s));
  }

  function LowerChar(c: char): char {
    if 'A' <= c <= 'Z' then c - 'A' + 'a' else c
  }

  lemma LowerIsTame()
    ensures Tame(LowerChar)
  {
  }

  /** The case fold of ILIKE: any tame one. Nothing else is known about it. */
  ghost function CaseFold(): char -> char {
    LowerIsTame();
    var fold: char -> char :| Tame(fold);
    fold
  }

  lemma CaseFoldIsTame()
    ensures Tame(CaseFold())
  {
  }
}
