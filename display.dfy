/** The display normaliser `mon` applies to a catalog label before publishing
    it (example.py:109-112): strip the "@WM_..._" prefix with `re.sub`, drop
    every "_W", turn underscores into spaces, then title-case the result. */
module Display {
  import opened Wrappers
  import opened Ascii

  /** The keys whose labels carry a two-segment prefix such as
      "@WM_OPTION_SPIN_"; every other key uses the one-segment pattern. */
  predicate IsOptionKey(key: string) {
    key == "SpinSpeed" || key == "RinseOption" || key == "Soil" || key == "WaterTemp"
  }

  // ---------------------------------------------------------------------
  // The prefix patterns "@WM_[A-Z]+_" and "@WM_[A-Z]+_[A-Z]+_"
  // ---------------------------------------------------------------------

  /** A text matched by `[A-Z]+_`. */
  ghost predicate IsSegment(t: string) {
    |t| >= 2 && t[|t| - 1] == '_' && forall i :: 0 <= i < |t| - 1 ==> IsUpper(t[i])
  }

  /** A text matched by the prefix pattern; `two` selects the two-segment one. */
  ghost predicate InPattern(two: bool, t: string) {
    |t| >= 4 && t[..4] == "@WM_" &&
    if two then exists k :: 4 < k < |t| && IsSegment(t[4..k]) && IsSegment(t[k..])
    else IsSegment(t[4..])
  }

  /** Length of the match of `[A-Z]+_` at the start of `s`. Since `[A-Z]` does
      not contain `_`, the run before the underscore is the maximal one. */
  function SegmentMatch(s: string): (r: Option<nat>)
    ensures r.Some? ==> 2 <= r.value <= |s|
  {
    var n := UpperRun(s);
    if 0 < n < |s| && s[n] == '_' then Some(n + 1) else None
  }

  lemma SegmentMatchSpec(s: string, n: nat)
    ensures SegmentMatch(s) == Some(n) <==> n <= |s| && IsSegment(s[..n])
  {
    var m := UpperRun(s);
    if n <= |s| && IsSegment(s[..n]) {
      assert s[n - 1] == s[..n][n - 1];
    }
  }

  /** Length of the match of the prefix pattern at the start of `s`, if any. */
  function PrefixMatch(two: bool, s: string): (r: Option<nat>)
    ensures r.Some? ==> 6 <= r.value <= |s|
  {
    if |s| < 4 || s[..4] != "@WM_" then None
    else match SegmentMatch(s[4..])
      case None => None
      case Some(a) =>
        if !two then Some(4 + a)
        else
          match SegmentMatch(s[4 + a..])
          case None => None
          case Some(b) => Some(4 + a + b)
  }

  /** The match `PrefixMatch` finds is one the regular expression admits. */
  lemma PrefixMatchSound(two: bool, s: string)
    requires PrefixMatch(two, s).Some?
    ensures InPattern(two, s[..PrefixMatch(two, s).value])
  {
    var n := PrefixMatch(two, s).value;
    var t := s[..n];
    var a := SegmentMatch(s[4..]).value;
    SegmentMatchSpec(s[4..], a);
    assert t[..4] == s[..4];
    if two {
      var b := SegmentMatch(s[4 + a..]).value;
      SegmentMatchSpec(s[4 + a..], b);
      assert t[4..4 + a] == s[4..][..a];
      assert t[4 + a..] == s[4 + a..][..b];
    } else {
      assert t[4..] == s[4..][..a];
    }
  }

  /** A slice of a prefix of `s` is a prefix of a suffix of `s`. */
  lemma SliceOfPrefix(s: string, n: nat, i: nat, j: nat)
    requires i <= j <= n <= |s|
    ensures s[..n][i..j] == s[i..][..j - i]
  {
  }

  lemma PrefixMatchCompleteOne(s: string, n: nat)
    requires n <= |s| && InPattern(false, s[..n])
    ensures PrefixMatch(false, s) == Some(n)
  {
    SliceOfPrefix(s, n, 0, 4);
    SliceOfPrefix(s, n, 4, n);
    SegmentMatchSpec(s[4..], n - 4);
  }

  /** `PrefixMatch` in the two-segment case, once both segments are found. */
  lemma PrefixMatchOfSegments(s: string, a: nat, b: nat)
    requires |s| >= 4 && s[..4] == "@WM_"
    requires SegmentMatch(s[4..]) == Some(a) && 4 + a <= |s|
    requires SegmentMatch(s[4 + a..]) == Some(b)
    ensures PrefixMatch(true, s) == Some(4 + a + b)
  {
  }

  /** Where the first of the two segments of a match ends. */
  lemma TwoSegmentSplit(t: string) returns (k: nat)
    requires InPattern(true, t)
    ensures 4 < k < |t| && IsSegment(t[4..k]) && IsSegment(t[k..])
  {
    k :| 4 < k < |t| && IsSegment(t[4..k]) && IsSegment(t[k..]);
  }

  lemma PrefixMatchCompleteTwo(s: string, n: nat)
    requires n <= |s| && InPattern(true, s[..n])
    ensures PrefixMatch(true, s) == Some(n)
  {
    var t := s[..n];
    var k := TwoSegmentSplit(t);
    SliceOfPrefix(s, n, 0, 4);
    SliceOfPrefix(s, n, 4, k);
    SliceOfPrefix(s, n, k, n);
    SegmentMatchSpec(s[4..], k - 4);
    SegmentMatchSpec(s[k..], n - k);
    PrefixMatchOfSegments(s, k - 4, n - k);
  }

  /** Any match the regular expression admits at the start of `s` is the one
      `PrefixMatch` finds. */
  lemma PrefixMatchComplete(two: bool, s: string, n: nat)
    requires n <= |s| && InPattern(two, s[..n])
    ensures PrefixMatch(two, s) == Some(n)
  {
    if two {
      PrefixMatchCompleteTwo(s, n);
    } else {
      PrefixMatchCompleteOne(s, n);
    }
  }

  /** So the regular expression admits at most one match at a position, and
      `PrefixMatch` finds exactly it. */
  lemma PrefixMatchSpec(two: bool, s: string, n: nat)
    ensures PrefixMatch(two, s) == Some(n) <==> n <= |s| && InPattern(two, s[..n])
  {
    if PrefixMatch(two, s) == Some(n) {
      PrefixMatchSound(two, s);
    }
    if n <= |s| && InPattern(two, s[..n]) {
      PrefixMatchComplete(two, s, n);
    }
  }

  // ---------------------------------------------------------------------
  // The four steps of the pipeline
  // ---------------------------------------------------------------------

  /** `re.sub(pattern, "", s)`: scanning left to right, each match is removed
      and scanning resumes after it; the text left behind is not rescanned. */
  function StripPrefixes(two: bool, s: string): (r: string)
    ensures |r| <= |s|
    decreases |s|
  {
    if s == [] then []
    else
      match PrefixMatch(two, s)
      case Some(n) => StripPrefixes(two, s[n..])
      case None => [s[0]] + StripPrefixes(two, s[1..])
  }

  /** `s.replace("_W", "")`: every occurrence, found left to right, without
      overlaps. */
  function DropW(s: string): (r: string)
    ensures |r| <= |s|
  {
    if |s| >= 2 && s[0] == '_' && s[1] == 'W' then DropW(s[2..])
    else if s == [] then []
    else [s[0]] + DropW(s[1..])
  }

  /** `s.replace("_", " ")`. */
  function Spaces(s: string): (r: string)
    ensures |r| == |s|
  {
    if s == [] then [] else [if s[0] == '_' then ' ' else s[0]] + Spaces(s[1..])
  }

  /** Title-casing of `s` when the character before it is (`afterLetter`) or
      is not a letter: CPython's scan, which carries that one bit along. */
  function TitleFrom(afterLetter: bool, s: string): (r: string)
    ensures |r| == |s|
    decreases |s|
  {
    if s == [] then []
    else [if afterLetter then ToLower(s[0]) else ToUpper(s[0])] + TitleFrom(IsLetter(s[0]), s[1..])
  }

  /** `s.title()` on ASCII text. */
  function Title(s: string): (r: string)
    ensures |r| == |s|
  {
    TitleFrom(false, s)
  }

  /** The whole per-value pipeline of example.py:110 (option keys) and :112
      (every other key). */
  function Normalise(key: string, text: string): (r: string)
    ensures '_' !in r
    ensures |r| <= |text|
  {
    var spaced := Spaces(DropW(StripPrefixes(IsOptionKey(key), text)));
    var r := Title(spaced);
    assert forall i :: 0 <= i < |r| ==> r[i] != '_' by {
      forall i | 0 <= i < |r| ensures r[i] != '_' {
        SpacesAt(DropW(StripPrefixes(IsOptionKey(key), text)), i);
        TitleAt(spaced, i);
        assert ToUpper(spaced[i]) != '_' && ToLower(spaced[i]) != '_';
      }
    }
    r
  }

  // ---------------------------------------------------------------------
  // Properties of the steps
  // ---------------------------------------------------------------------

  /** Text without an '@' holds no prefix match and is left as it is. */
  lemma {:induction false} StripPrefixesWithoutMarker(two: bool, s: string)
    requires '@' !in s
    ensures StripPrefixes(two, s) == s
    decreases |s|
  {
    if s != [] {
      assert PrefixMatch(two, s).None? by {
        if |s| >= 4 { assert s[..4][0] == s[0]; }
      }
      StripPrefixesWithoutMarker(two, s[1..]);
    }
  }

  /** A prefix match at the start is removed and scanning resumes right after
      it. */
  lemma StripPrefixesOfMatch(two: bool, p: string, rest: string)
    requires InPattern(two, p)
    ensures StripPrefixes(two, p + rest) == StripPrefixes(two, rest)
  {
    var s := p + rest;
    assert s[..|p|] == p;
    PrefixMatchSpec(two, s, |p|);
    assert s[|p|..] == rest;
  }

  /** A text that does not start with '@' keeps its first character and is
      scanned on from the second. */
  lemma StripPrefixesPlainStep(two: bool, s: string)
    requires s != [] && s[0] != '@'
    ensures StripPrefixes(two, s) == [s[0]] + StripPrefixes(two, s[1..])
  {
    assert PrefixMatch(two, s).None? by {
      if |s| >= 4 { assert s[..4][0] == s[0]; }
    }
  }

  /** Text before a match is kept as it is, and the match itself is removed
      wherever it sits: `re.sub` is not anchored at the start of the label. */
  lemma {:induction false} StripPrefixesAfterPlain(two: bool, a: string, p: string, rest: string)
    requires '@' !in a && InPattern(two, p)
    ensures StripPrefixes(two, a + p + rest) == a + StripPrefixes(two, rest)
    decreases |a|
  {
    if a == [] {
      assert a + p + rest == p + rest;
      StripPrefixesOfMatch(two, p, rest);
    } else {
      var tail := a[1..] + p + rest;
      assert a + p + rest == [a[0]] + tail;
      assert '@' !in a[1..] by {
        forall i | 0 <= i < |a| - 1 ensures a[1..][i] != '@' { assert a[1..][i] == a[i + 1]; }
      }
      calc {
        StripPrefixes(two, a + p + rest);
        StripPrefixes(two, [a[0]] + tail);
        { assert ([a[0]] + tail)[1..] == tail;
          StripPrefixesPlainStep(two, [a[0]] + tail); }
        [a[0]] + StripPrefixes(two, tail);
        { StripPrefixesAfterPlain(two, a[1..], p, rest); }
        [a[0]] + (a[1..] + StripPrefixes(two, rest));
        { assert a == [a[0]] + a[1..]; }
        a + StripPrefixes(two, rest);
      }
    }
  }

  /** `s` holds no occurrence of "_W". */
  predicate FreeOfW(s: string) {
    forall i :: 0 <= i < |s| - 1 ==> !(s[i] == '_' && s[i + 1] == 'W')
  }

  /** Text holding no "_W" is left as it is. */
  lemma {:induction false} DropWUnchanged(s: string)
    requires FreeOfW(s)
    ensures DropW(s) == s
  {
    if s != [] {
      assert !(|s| >= 2 && s[0] == '_' && s[1] == 'W');
      assert FreeOfW(s[1..]) by {
        forall i | 0 <= i < |s[1..]| - 1
          ensures !(s[1..][i] == '_' && s[1..][i + 1] == 'W')
        {
          assert s[1..][i] == s[i + 1] && s[1..][i + 1] == s[i + 2];
        }
      }
      DropWUnchanged(s[1..]);
    }
  }

  /** `replace` distributes over a split that does not cut an occurrence of
      "_W" in two. */
  lemma {:induction false} DropWAppend(a: string, b: string)
    requires a == [] || b == [] || a[|a| - 1] != '_' || b[0] != 'W'
    ensures DropW(a + b) == DropW(a) + DropW(b)
    decreases |a|, 1
  {
    if a == [] {
      assert a + b == b;
    } else if |a| >= 2 && a[0] == '_' && a[1] == 'W' {
      DropWAppendSkip(a, b);
    } else {
      DropWAppendKeep(a, b);
    }
  }

  /** `DropWAppend` when `a` starts with "_W". */
  lemma {:induction false} DropWAppendSkip(a: string, b: string)
    requires |a| >= 2 && a[0] == '_' && a[1] == 'W'
    requires b == [] || a[|a| - 1] != '_' || b[0] != 'W'
    ensures DropW(a + b) == DropW(a) + DropW(b)
    decreases |a|, 0
  {
    var ab := a + b;
    assert ab[0] == '_' && ab[1] == 'W';
    assert ab[2..] == a[2..] + b;
    DropWAppend(a[2..], b);
  }

  /** `DropWAppend` when the first character of `a` is kept. */
  lemma {:induction false} DropWAppendKeep(a: string, b: string)
    requires a != [] && !(|a| >= 2 && a[0] == '_' && a[1] == 'W')
    requires b == [] || a[|a| - 1] != '_' || b[0] != 'W'
    ensures DropW(a + b) == DropW(a) + DropW(b)
    decreases |a|, 0
  {
    var ab := a + b;
    var a' := a[1..];
    assert ab[0] == a[0];
    assert !(|ab| >= 2 && ab[0] == '_' && ab[1] == 'W') by {
      if |a| == 1 { assert ab[1..] == b; } else { assert ab[1] == a[1]; }
    }
    assert ab[1..] == a' + b;
    assert a' == [] || b == [] || a'[|a'| - 1] != '_' || b[0] != 'W' by {
      if a' != [] { assert a'[|a'| - 1] == a[|a| - 1]; }
    }
    calc {
      DropW(ab);
      { DropWKeeps(ab); }
      [a[0]] + DropW(a' + b);
      { DropWAppend(a', b); }
      [a[0]] + (DropW(a') + DropW(b));
      ([a[0]] + DropW(a')) + DropW(b);
      { DropWKeeps(a); }
      DropW(a) + DropW(b);
    }
  }

  /** A first character that does not start "_W" is kept. */
  lemma DropWKeeps(s: string)
    requires s != [] && !(|s| >= 2 && s[0] == '_' && s[1] == 'W')
    ensures DropW(s) == [s[0]] + DropW(s[1..])
  {
  }

  /** The trailing "_W" of a machine label disappears. */
  lemma DropWTrailing(b: string)
    ensures DropW(b + "_W") == DropW(b)
  {
    DropWAppend(b, "_W");
    assert DropW("_W") == [];
  }

  /** An occurrence of "_W" inside the text is removed as well, not only the
      trailing one. */
  lemma DropWInner(a: string, b: string)
    requires a == [] || a[|a| - 1] != '_'
    requires b == [] || b[0] != 'W'
    ensures DropW(a + "_W" + b) == DropW(a) + DropW(b)
  {
    DropWAppend(a, "_W" + b);
    assert a + "_W" + b == a + ("_W" + b);
    assert ("_W" + b)[2..] == b;
  }

  /** Character `i` of `Spaces(s)`: underscores become spaces, nothing else
      changes. */
  lemma {:induction false} SpacesAt(s: string, i: nat)
    requires i < |s|
    ensures Spaces(s)[i] == (if s[i] == '_' then ' ' else s[i])
  {
    if i > 0 {
      SpacesAt(s[1..], i - 1);
    }
  }

  lemma {:induction false} TitleFromAt(afterLetter: bool, s: string, i: nat)
    requires i < |s|
    ensures TitleFrom(afterLetter, s)[i] ==
      (if (if i == 0 then afterLetter else IsLetter(s[i - 1])) then ToLower(s[i]) else ToUpper(s[i]))
    decreases i
  {
    if i > 0 {
      TitleFromAt(IsLetter(s[0]), s[1..], i - 1);
    }
  }

  /** What `str.title()` promises, character by character: a letter is
      upper-cased when the character before it is not a letter (or it is the
      first), and lower-cased otherwise; every other character is kept. */
  lemma TitleAt(s: string, i: nat)
    requires i < |s|
    ensures Title(s)[i] == (if i > 0 && IsLetter(s[i - 1]) then ToLower(s[i]) else ToUpper(s[i]))
    ensures !IsLetter(s[i]) ==> Title(s)[i] == s[i]
    ensures IsLetter(Title(s)[i]) <==> IsLetter(s[i])
  {
    TitleFromAt(false, s, i);
  }

  lemma {:induction false} SpacesAppend(a: string, b: string)
    ensures Spaces(a + b) == Spaces(a) + Spaces(b)
  {
    if a == [] {
      assert a + b == b;
    } else {
      var c := if a[0] == '_' then ' ' else a[0];
      assert (a + b)[0] == a[0];
      assert (a + b)[1..] == a[1..] + b;
      SpacesAppend(a[1..], b);
      calc {
        Spaces(a + b);
        [c] + Spaces(a[1..] + b);
        [c] + (Spaces(a[1..]) + Spaces(b));
        ([c] + Spaces(a[1..])) + Spaces(b);
        Spaces(a) + Spaces(b);
      }
    }
  }

  /** The scan splits at any point, carrying over whether the last character
      before the split is a letter. */
  lemma {:induction false} TitleFromAppend(afterLetter: bool, a: string, b: string)
    requires a != []
    ensures TitleFrom(afterLetter, a + b) == TitleFrom(afterLetter, a) + TitleFrom(IsLetter(a[|a| - 1]), b)
    decreases |a|
  {
    if |a| == 1 {
      assert (a + b)[1..] == b;
      assert a[1..] == [];
    } else {
      assert (a + b)[1..] == a[1..] + b;
      TitleFromAppend(IsLetter(a[0]), a[1..], b);
    }
  }

  /** A character that is not a letter resets the scan: the text after it
      starts a new word. */
  lemma TitleFromSeparator(afterLetter: bool, c: char, s: string)
    requires !IsLetter(c)
    ensures TitleFrom(afterLetter, [c] + s) == [c] + TitleFrom(false, s)
  {
    assert ([c] + s)[0] == c && ([c] + s)[1..] == s;
  }

  /** Spacing splits around a single character. */
  lemma SpacesSeparator(a: string, c: char, b: string)
    ensures Spaces(a + [c] + b) == Spaces(a) + ([if c == '_' then ' ' else c] + Spaces(b))
  {
    SpacesAppend(a + [c], b);
    SpacesAppend(a, [c]);
    assert Spaces([c]) == [if c == '_' then ' ' else c];
  }

  /** Words separated by a character that is not a letter are displayed word
      by word: an underscore becomes a space, any other separator stays. */
  lemma TitleSpacesJoin(a: string, c: char, b: string)
    requires a != [] && !IsLetter(c)
    ensures Title(Spaces(a + [c] + b)) == Title(Spaces(a)) + ([if c == '_' then ' ' else c] + Title(Spaces(b)))
  {
    var sa, sb := Spaces(a), Spaces(b);
    var d := if c == '_' then ' ' else c;
    SpacesSeparator(a, c, b);
    TitleFromAppend(false, sa, [d] + sb);
    TitleFromSeparator(IsLetter(sa[|sa| - 1]), d, sb);
  }

  /** Under an option key, a label "@WM_<A>_<B>_<body>_W" whose body holds no
      further '@' is displayed as the title-cased body with its underscores
      turned into spaces; likewise "@WM_<A>_<body>_W" under any other key. */
  lemma NormaliseMachineLabel(key: string, p: string, body: string)
    requires InPattern(IsOptionKey(key), p)
    requires '@' !in body
    ensures Normalise(key, p + body + "_W") == Title(Spaces(DropW(body)))
  {
    var two := IsOptionKey(key);
    assert p + body + "_W" == p + (body + "_W");
    StripPrefixesOfMatch(two, p, body + "_W");
    assert '@' !in body + "_W";
    StripPrefixesWithoutMarker(two, body + "_W");
    DropWTrailing(body);
  }

  /** The same when the body itself holds no "_W". */
  lemma NormalisePlainLabel(key: string, p: string, body: string)
    requires InPattern(IsOptionKey(key), p)
    requires '@' !in body && FreeOfW(body)
    ensures Normalise(key, p + body + "_W") == Title(Spaces(body))
  {
    NormaliseMachineLabel(key, p, body);
    DropWUnchanged(body);
  }

  /** A label with no '@' and no "_W" is only spaced and title-cased. */
  lemma NormaliseUnmarked(key: string, text: string)
    requires '@' !in text && FreeOfW(text)
    ensures Normalise(key, text) == Title(Spaces(text))
  {
    StripPrefixesWithoutMarker(IsOptionKey(key), text);
    DropWUnchanged(text);
  }


  /** "@WM_" followed by two segments is in the two-segment pattern. */
  lemma OptionPrefix(a: string, b: string)
    requires IsSegment(a) && IsSegment(b)
    ensures InPattern(true, "@WM_" + a + b)
  {
    var t := "@WM_" + a + b;
    assert t[..4] == "@WM_";
    assert t[4..4 + |a|] == a;
    assert t[4 + |a|..] == b;
  }

  /** "@WM_" followed by one segment is in the one-segment pattern. */
  lemma StatePrefix(a: string)
    requires IsSegment(a)
    ensures InPattern(false, "@WM_" + a)
  {
    var t := "@WM_" + a;
    assert t[..4] == "@WM_";
    assert t[4..] == a;
  }

  // ---------------------------------------------------------------------
  // Worked labels. Each literal fact is proved in a lemma of its own; the
  // words of a label are handed back as values, so that the general lemmas
  // above apply to them without re-evaluating the literals.
  // ---------------------------------------------------------------------

  lemma OptionSpinPieces()
    ensures IsSegment("OPTION_") && IsSegment("SPIN_")
    ensures "@WM_" + "OPTION_" + "SPIN_" == "@WM_OPTION_SPIN_"
  {
  }

  lemma OptionSpinPrefix()
    ensures InPattern(true, "@WM_OPTION_SPIN_")
  {
    OptionSpinPieces();
    OptionPrefix("OPTION_", "SPIN_");
  }

  lemma OptionRinsePieces()
    ensures IsSegment("OPTION_") && IsSegment("RINSE_")
    ensures "@WM_" + "OPTION_" + "RINSE_" == "@WM_OPTION_RINSE_"
  {
  }

  lemma OptionRinsePrefix()
    ensures InPattern(true, "@WM_OPTION_RINSE_")
  {
    OptionRinsePieces();
    OptionPrefix("OPTION_", "RINSE_");
  }

  lemma StatePieces()
    ensures IsSegment("STATE_") && "@WM_" + "STATE_" == "@WM_STATE_"
  {
  }

  lemma StatePhasePrefix()
    ensures InPattern(false, "@WM_STATE_")
  {
    StatePieces();
    StatePrefix("STATE_");
  }

  // "@WM_OPTION_SPIN_800_W"

  lemma Spin800Parts()
    ensures "@WM_OPTION_SPIN_800_W" == "@WM_OPTION_SPIN_" + "800" + "_W"
    ensures '@' !in "800" && FreeOfW("800")
    ensures Title(Spaces("800")) == "800"
  {
  }

  /** "@WM_OPTION_SPIN_800_W" under `SpinSpeed` is displayed as "800". */
  lemma Spin800Example()
    ensures Normalise("SpinSpeed", "@WM_OPTION_SPIN_800_W") == "800"
  {
    OptionSpinPrefix();
    Spin800Parts();
    NormalisePlainLabel("SpinSpeed", "@WM_OPTION_SPIN_", "800");
  }

  // "@WM_OPTION_SPIN_NO_SPIN_W"

  lemma NoSpinLabel()
    ensures "@WM_OPTION_SPIN_NO_SPIN_W" == "@WM_OPTION_SPIN_" + "NO_SPIN" + "_W"
    ensures '@' !in "NO_SPIN" && FreeOfW("NO_SPIN")
  {
  }

  lemma NoWord()
    ensures Title(Spaces("NO")) == "No"
  {
  }

  lemma SpinWord()
    ensures Title(Spaces("SPIN")) == "Spin"
  {
  }

  lemma NoSpinText()
    ensures "NO" + ['_'] + "SPIN" == "NO_SPIN" && "No" + ([' '] + "Spin") == "No Spin"
  {
  }

  lemma NoSpinWords() returns (a: string, b: string, x: string, y: string)
    ensures a != [] && a + ['_'] + b == "NO_SPIN"
    ensures Title(Spaces(a)) == x && Title(Spaces(b)) == y && x + ([' '] + y) == "No Spin"
  {
    a, b, x, y := "NO", "SPIN", "No", "Spin";
    NoWord();
    SpinWord();
    NoSpinText();
  }

  /** "@WM_OPTION_SPIN_NO_SPIN_W" under `SpinSpeed` is displayed as "No Spin":
      the underscore between the words becomes a space. */
  lemma NoSpinExample()
    ensures Normalise("SpinSpeed", "@WM_OPTION_SPIN_NO_SPIN_W") == "No Spin"
  {
    OptionSpinPrefix();
    NoSpinLabel();
    var a, b, x, y := NoSpinWords();
    TitleSpacesJoin(a, '_', b);
    NormalisePlainLabel("SpinSpeed", "@WM_OPTION_SPIN_", "NO_SPIN");
  }

  // "@WM_OPTION_RINSE_RINSE+HOLD_W"

  lemma RinseHoldLabel()
    ensures "@WM_OPTION_RINSE_RINSE+HOLD_W" == "@WM_OPTION_RINSE_" + "RINSE+HOLD" + "_W"
    ensures '@' !in "RINSE+HOLD" && FreeOfW("RINSE+HOLD")
  {
  }

  lemma RinseWord()
    ensures Title(Spaces("RINSE")) == "Rinse"
  {
  }

  lemma HoldWord()
    ensures Title(Spaces("HOLD")) == "Hold"
  {
  }

  lemma RinseHoldText()
    ensures "RINSE" + ['+'] + "HOLD" == "RINSE+HOLD" && "Rinse" + (['+'] + "Hold") == "Rinse+Hold"
  {
  }

  lemma RinseHoldWords() returns (a: string, b: string, x: string, y: string)
    ensures a != [] && a + ['+'] + b == "RINSE+HOLD"
    ensures Title(Spaces(a)) == x && Title(Spaces(b)) == y && x + (['+'] + y) == "Rinse+Hold"
  {
    a, b, x, y := "RINSE", "HOLD", "Rinse", "Hold";
    RinseWord();
    HoldWord();
    RinseHoldText();
  }

  /** "@WM_OPTION_RINSE_RINSE+HOLD_W" under `RinseOption` is displayed as
      "Rinse+Hold": the letter after '+' starts a new word. */
  lemma RinseHoldExample()
    ensures Normalise("RinseOption", "@WM_OPTION_RINSE_RINSE+HOLD_W") == "Rinse+Hold"
  {
    OptionRinsePrefix();
    RinseHoldLabel();
    var a, b, x, y := RinseHoldWords();
    TitleSpacesJoin(a, '+', b);
    NormalisePlainLabel("RinseOption", "@WM_OPTION_RINSE_", "RINSE+HOLD");
  }

  // "@WM_STATE_RUNNING_W"

  lemma RunningLabel()
    ensures "@WM_STATE_RUNNING_W" == "@WM_STATE_" + "RUNNING" + "_W"
    ensures '@' !in "RUNNING" && FreeOfW("RUNNING")
  {
  }

  lemma RunningWord()
    ensures Title(Spaces("RUNNING")) == "Running"
  {
  }

  /** "@WM_STATE_RUNNING_W" under `State` is displayed as "Running". */
  lemma RunningExample()
    ensures Normalise("State", "@WM_STATE_RUNNING_W") == "Running"
  {
    StatePhasePrefix();
    RunningLabel();
    RunningWord();
    NormalisePlainLabel("State", "@WM_STATE_", "RUNNING");
  }

  // "@WM_STATE_POWER_OFF_W"

  lemma PowerOffLabel()
    ensures "@WM_STATE_POWER_OFF_W" == "@WM_STATE_" + "POWER_OFF" + "_W"
    ensures '@' !in "POWER_OFF" && FreeOfW("POWER_OFF")
  {
  }

  lemma PowerWord()
    ensures Title(Spaces("POWER")) == "Power"
  {
  }

  lemma OffWord()
    ensures Title(Spaces("OFF")) == "Off"
  {
  }

  lemma PowerOffText()
    ensures "POWER" + ['_'] + "OFF" == "POWER_OFF" && "Power" + ([' '] + "Off") == "Power Off"
  {
  }

  lemma PowerOffWords() returns (a: string, b: string, x: string, y: string)
    ensures a != [] && a + ['_'] + b == "POWER_OFF"
    ensures Title(Spaces(a)) == x && Title(Spaces(b)) == y && x + ([' '] + y) == "Power Off"
  {
    a, b, x, y := "POWER", "OFF", "Power", "Off";
    PowerWord();
    OffWord();
    PowerOffText();
  }

  /** "@WM_STATE_POWER_OFF_W" under `State` is displayed as "Power Off". */
  lemma PowerOffExample()
    ensures Normalise("State", "@WM_STATE_POWER_OFF_W") == "Power Off"
  {
    StatePhasePrefix();
    PowerOffLabel();
    var a, b, x, y := PowerOffWords();
    TitleSpacesJoin(a, '_', b);
    NormalisePlainLabel("State", "@WM_STATE_", "POWER_OFF");
  }

  // "TCL_ALARM_NORMAL"

  lemma TclAlarmLabel()
    ensures '@' !in "TCL_ALARM_NORMAL" && FreeOfW("TCL_ALARM_NORMAL")
  {
  }

  lemma TclWord()
    ensures Title(Spaces("TCL")) == "Tcl"
  {
  }

  lemma AlarmWord()
    ensures Title(Spaces("ALARM")) == "Alarm"
  {
  }

  lemma NormalWord()
    ensures Title(Spaces("NORMAL")) == "Normal"
  {
  }

  lemma TclAlarmText()
    ensures "TCL" + ['_'] + ("ALARM" + ['_'] + "NORMAL") == "TCL_ALARM_NORMAL"
    ensures "Tcl" + ([' '] + ("Alarm" + ([' '] + "Normal"))) == "Tcl Alarm Normal"
  {
  }

  lemma TclAlarmWords() returns (a: string, b: string, c: string, x: string, y: string, z: string)
    ensures a != [] && b != [] && a + ['_'] + (b + ['_'] + c) == "TCL_ALARM_NORMAL"
    ensures Title(Spaces(a)) == x && Title(Spaces(b)) == y && Title(Spaces(c)) == z
    ensures x + ([' '] + (y + ([' '] + z))) == "Tcl Alarm Normal"
  {
    a, b, c, x, y, z := "TCL", "ALARM", "NORMAL", "Tcl", "Alarm", "Normal";
    TclWord();
    AlarmWord();
    NormalWord();
    TclAlarmText();
  }

  /** "TCL_ALARM_NORMAL", the one value without a prefix, is displayed as
      "Tcl Alarm Normal". */
  lemma TclAlarmExample()
    ensures Normalise("State", "TCL_ALARM_NORMAL") == "Tcl Alarm Normal"
  {
    TclAlarmLabel();
    var a, b, c, x, y, z := TclAlarmWords();
    TitleSpacesJoin(b, '_', c);
    TitleSpacesJoin(a, '_', b + ['_'] + c);
    NormaliseUnmarked("State", "TCL_ALARM_NORMAL");
  }
}
