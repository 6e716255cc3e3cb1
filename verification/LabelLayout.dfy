/**
 The estimate of how many lines a canvas label wraps to. Widths are reals; the text comes as its list of words.
 */
module LabelLayout {

  const MAX_LINES := 80

  /** Font-dependent widths; the source uses 0.52 and 0.35 of the font size. */
  datatype Font = Font(charWidth: real, spaceWidth: real)

  function FontOf(size: real): Font {
    Font(size * 0.52, size * 0.35)
  }

  predicate Words(words: seq<string>) {
    forall i :: 0 <= i < |words| ==> words[i] != ""
  }

  function Width(font: Font, word: string): real {
    |word| as real * font.charWidth
  }

  function Ceil(r: real): int {
    if r.Floor as real == r then r.Floor else r.Floor + 1
  }

  function Trunc(r: real): int {
    if r < 0.0 then -((-r).Floor) else r.Floor
  }

  /** JavaScript's remainder, which has the sign of the dividend. */
  function Rest(w: real, max: real): real
    requires max != 0.0
  {
    w - max * (Trunc(w / max) as real)
  }

  /** The lines begun so far, the width used on the last one, and whether a division by zero made the lines infinite. */
  datatype Wrap = Wrap(lines: int, used: real, endless: bool)

  const START := Wrap(1, 0.0, false)

  function AddWord(font: Font, max: real, s: Wrap, word: string): Wrap {
    var w := Width(font, word);
    if w > max then
      if max == 0.0 then Wrap(s.lines, font.charWidth * 0.5, true)
      else
        var rest := Rest(w, max);
        Wrap(s.lines + (if s.used > 0.0 then 1 else 0) + Ceil(w / max) - 1,
             if rest == 0.0 then font.charWidth * 0.5 else rest,
             s.endless)
    else
      var gap := if s.used > 0.0 then font.spaceWidth else 0.0;
      if s.used + gap + w <= max + 0.5 then s.(used := s.used + gap + w)
      else s.(lines := s.lines + 1, used := w)
  }

  function WrapWords(font: Font, max: real, words: seq<string>): Wrap {
    if words == [] then START
    else AddWord(font, max, WrapWords(font, max, words[..|words| - 1]), words[|words| - 1])
  }

  function Clamp(s: Wrap): int {
    if s.endless || s.lines > MAX_LINES then MAX_LINES else if s.lines < 1 then 1 else s.lines
  }

  function Estimate(size: real, max: real, words: seq<string>): int {
    Clamp(WrapWords(FontOf(size), max, words))
  }

  method EstimateLineCount(words: seq<string>, max: real, size: real) returns (count: int)
    ensures count == Estimate(size, max, words)
    ensures 1 <= count <= 80
  {
    if words == [] { return 1; }
    var font := FontOf(size);
    var lines := 1;
    var lineWidth := 0.0;
    var endless := false;
    for i := 0 to |words|
      invariant Wrap(lines, lineWidth, endless) == WrapWords(font, max, words[..i])
    {
      assert words[..i + 1][..i] == words[..i];
      var wordWidth := Width(font, words[i]);
      if wordWidth > max {
        if max == 0.0 {
          endless := true;
          lineWidth := font.charWidth * 0.5;
        } else {
          if lineWidth > 0.0 {
            lines := lines + 1;
          }
          lines := lines + Ceil(wordWidth / max) - 1;
          lineWidth := if Rest(wordWidth, max) == 0.0 then font.charWidth * 0.5 else Rest(wordWidth, max);
        }
      } else {
        var gap := if lineWidth > 0.0 then font.spaceWidth else 0.0;
        if lineWidth + gap + wordWidth <= max + 0.5 {
          lineWidth := lineWidth + gap + wordWidth;
        } else {
          lines := lines + 1;
          lineWidth := wordWidth;
        }
      }
    }
    assert words[..|words|] == words;
    count := if endless then MAX_LINES else if lines < 1 then 1 else lines;
    count := if count < MAX_LINES then count else MAX_LINES;
  }

  lemma FontWidths(size: real)
    ensures FontOf(size).charWidth * 100.0 == size * 52.0 && FontOf(size).spaceWidth * 100.0 == size * 35.0
  {
  }

  /** The remainder is a part of the divisor, on the side of the dividend. */
  lemma RestIsSmall(w: real, max: real)
    requires max != 0.0
    ensures var size := if max < 0.0 then -max else max;
      if w >= 0.0 then 0.0 <= Rest(w, max) < size else -size < Rest(w, max) <= 0.0
  {
    var q: real := w / max;
    var k: real := Trunc(q) as real;
    assert q * max == w;
    assert Rest(w, max) == (q - k) * max;
    QuotientSign(w, max, q);
    if q < 0.0 { FractionOf(k - q, max, (k - q) * max); } else { FractionOf(q - k, max, (q - k) * max); }
    assert (k - q) * max == -((q - k) * max);
  }

  lemma QuotientSign(w: real, max: real, q: real)
    requires max != 0.0 && q * max == w
    ensures q < 0.0 <==> (w < 0.0 < max) || (max < 0.0 < w)
  {
    if q < 0.0 {
      assert max > 0.0 ==> (-q) * max > 0.0;
      assert max < 0.0 ==> (-q) * (-max) > 0.0;
    } else {
      assert max > 0.0 ==> q * max >= 0.0;
      assert max < 0.0 ==> q * (-max) >= 0.0;
    }
  }

  lemma FractionOf(f: real, max: real, part: real)
    requires 0.0 <= f < 1.0 && part == f * max
    ensures max > 0.0 ==> 0.0 <= part < max
    ensures max < 0.0 ==> max < part <= 0.0
  {
    if max > 0.0 {
      PartOf(part, f, max);
    } else if max < 0.0 {
      PartOf(-part, f, -max);
    }
  }

  /** After an overlong word that fills its lines exactly, and on lines without width, half a character is used. */
  lemma HalfACharacterIsUsed(font: Font, max: real, s: Wrap, word: string)
    requires Width(font, word) > max && (max == 0.0 || Rest(Width(font, word), max) == 0.0)
    ensures AddWord(font, max, s, word).used * 2.0 == font.charWidth
  {
  }

  // ---------------------------------------------------------------- capacity

  function TotalWidth(font: Font, words: seq<string>): real {
    if words == [] then 0.0 else TotalWidth(font, words[..|words| - 1]) + Width(font, words[|words| - 1])
  }

  /** An overlong word that fills its lines exactly, whose last line counts as almost empty. */
  predicate FillsExactly(font: Font, max: real, word: string)
    requires max > 0.0
  {
    Width(font, word) > max && Rest(Width(font, word), max) == 0.0
  }

  function ExactWords(font: Font, max: real, words: seq<string>): nat
    requires max > 0.0
  {
    if words == [] then 0
    else ExactWords(font, max, words[..|words| - 1]) + if FillsExactly(font, max, words[|words| - 1]) then 1 else 0
  }

  lemma WidthIsPositive(font: Font, word: string)
    requires font.charWidth > 0.0 && word != ""
    ensures Width(font, word) > 0.0
  {
  }

  /** Multiplication as repeated addition, to reason about whole numbers of lines. */
  function Times(n: nat, x: real): real {
    if n == 0 then 0.0 else Times(n - 1, x) + x
  }

  lemma {:induction false} TimesIsProduct(n: nat, x: real)
    ensures Times(n, x) == n as real * x
  {
    if n > 0 {
      TimesIsProduct(n - 1, x);
      assert n as real * x == (n - 1) as real * x + x;
    }
  }

  lemma {:induction false} TimesSum(a: nat, b: nat, x: real)
    ensures Times(a + b, x) == Times(a, x) + Times(b, x)
  {
    if b > 0 {
      TimesSum(a, b - 1, x);
      assert a + b - 1 == a + (b - 1);
    }
  }

  lemma {:induction false} TimesGrows(n: nat, x: real, y: real)
    requires x <= y
    ensures Times(n, x) <= Times(n, y)
  {
    if n > 0 {
      TimesGrows(n - 1, x, y);
    }
  }

  lemma PartOf(part: real, f: real, max: real)
    requires 0.0 <= f < 1.0 && max > 0.0 && part == f * max
    ensures 0.0 <= part < max && (part == 0.0 <==> f == 0.0)
  {
    var other := (1.0 - f) * max;
    assert other > 0.0;
    assert other == max - part;
    assert f > 0.0 ==> part > 0.0;
  }

  lemma QuotientAbove(w: real, max: real)
    requires w > max > 0.0
    ensures w / max > 1.0 && (w / max) * max == w
  {
    var q := w / max;
    assert q * max == w;
    assert (q - 1.0) * max == w - max;
  }

  lemma RestOfQuotient(w: real, max: real, k: real)
    requires max > 0.0 && w / max >= 0.0 && k == (w / max).Floor as real
    ensures Rest(w, max) == w - k * max
  {
    assert Trunc(w / max) == (w / max).Floor;
  }

  lemma RestIsPart(w: real, max: real, q: real, k: real, rest: real)
    requires q * max == w && rest == w - k * max
    ensures rest == (q - k) * max
  {
  }

  lemma WholeAndRest(w: real, max: real, k: nat)
    requires max > 0.0 && w / max >= 0.0 && k == (w / max).Floor
    ensures w == Times(k, max) + Rest(w, max)
  {
    RestOfQuotient(w, max, k as real);
    TimesIsProduct(k, max);
  }

  /** An overlong word: its lines are the whole lines it fills, and one more for the rest. */
  lemma OverlongWord(w: real, max: real)
    requires w > max > 0.0
    ensures (w / max).Floor >= 1 && 0.0 <= Rest(w, max) < max
    ensures w == Times((w / max).Floor, max) + Rest(w, max)
    ensures Ceil(w / max) == (w / max).Floor + if Rest(w, max) == 0.0 then 0 else 1
  {
    QuotientAbove(w, max);
    var q: real := w / max;
    RestOfQuotient(w, max, q.Floor as real);
    RestIsPart(w, max, q, q.Floor as real, Rest(w, max));
    PartOf(Rest(w, max), q - q.Floor as real, max);
    WholeAndRest(w, max, q.Floor);
  }

  /** `text` is what the last line really holds of the words, which its recorded width may overstate. */
  predicate Holds(font: Font, max: real, words: seq<string>, s: Wrap, text: real)
    requires max > 0.0
  {
    && s.lines >= 1 && 0.0 <= text <= s.used && text <= max + 0.5
    && TotalWidth(font, words) <= Times(s.lines - 1, max + 0.5) + text + Times(ExactWords(font, max, words), max)
  }

  lemma {:induction false} WrapHolds(font: Font, max: real, words: seq<string>) returns (text: real)
    requires font.charWidth > 0.0 && font.spaceWidth >= 0.0 && max > 0.0 && Words(words)
    ensures Holds(font, max, words, WrapWords(font, max, words), text)
  {
    if words == [] {
      text := 0.0;
    } else {
      var init, word := words[..|words| - 1], words[|words| - 1];
      assert words == init + [word];
      var before := WrapHolds(font, max, init);
      if Width(font, word) > max {
        text := OverlongHolds(font, max, init, word, WrapWords(font, max, init), before);
      } else {
        text := WordHolds(font, max, init, word, WrapWords(font, max, init), before);
      }
    }
  }

  lemma WordHolds(font: Font, max: real, init: seq<string>, word: string, s: Wrap, before: real) returns (text: real)
    requires font.charWidth > 0.0 && font.spaceWidth >= 0.0 && max > 0.0 && word != ""
    requires Holds(font, max, init, s, before) && Width(font, word) <= max
    ensures Holds(font, max, init + [word], AddWord(font, max, s, word), text)
  {
    assert (init + [word])[..|init|] == init;
    WidthIsPositive(font, word);
    var w := Width(font, word);
    text := if AddWord(font, max, s, word).lines == s.lines then before + w else w;
  }

  lemma OverlongHolds(font: Font, max: real, init: seq<string>, word: string, s: Wrap, before: real)
    returns (text: real)
    requires font.charWidth > 0.0 && max > 0.0
    requires Holds(font, max, init, s, before) && Width(font, word) > max
    ensures Holds(font, max, init + [word], AddWord(font, max, s, word), text)
  {
    assert (init + [word])[..|init|] == init;
    var w, room := Width(font, word), max + 0.5;
    OverlongWord(w, max);
    var k, rest := (w / max).Floor, Rest(w, max);
    var extra := if s.used > 0.0 then 1 else 0;
    var whole := if rest == 0.0 then k - 1 else k;
    TimesGrows(whole, max, room);
    TimesSum(s.lines - 1, extra, room);
    TimesSum(s.lines - 1 + extra, whole, room);
    assert AddWord(font, max, s, word).lines == s.lines + extra + whole;
    assert Times(1, room) == Times(0, room) + room;
    assert ExactWords(font, max, init + [word]) == ExactWords(font, max, init) + if rest == 0.0 then 1 else 0;
    text := rest;
  }

  /** Before the cap, the lines have room for all words, except one maximal width per word that fills its lines
      exactly. */
  lemma LinesHoldTheWords(font: Font, max: real, words: seq<string>)
    requires font.charWidth > 0.0 && font.spaceWidth >= 0.0 && max > 0.0 && Words(words)
    ensures WrapWords(font, max, words).lines >= 1
    ensures TotalWidth(font, words) <=
      Times(WrapWords(font, max, words).lines, max + 0.5) + Times(ExactWords(font, max, words), max)
  {
    var text := WrapHolds(font, max, words);
    var n := WrapWords(font, max, words).lines;
    assert Times(n, max + 0.5) == Times(n - 1, max + 0.5) + (max + 0.5);
  }

  /** With no width at all, a text with a visible word gets the maximal number of lines; with a negative width, one. */
  lemma {:induction false} DegenerateWidth(size: real, max: real, words: seq<string>)
    requires max <= 0.0 && Words(words)
    ensures var s := WrapWords(FontOf(size), max, words);
      && (s.endless <==> max == 0.0 && size > 0.0 && words != [])
      && s.lines <= 1 && (size <= 0.0 ==> s.used <= 0.0)
    ensures Estimate(size, max, words) == if max == 0.0 && size > 0.0 && words != [] then 80 else 1
  {
    if words != [] {
      var init, word := words[..|words| - 1], words[|words| - 1];
      DegenerateWidth(size, max, init);
      DegenerateWord(size, max, WrapWords(FontOf(size), max, init), word);
    }
  }

  lemma DegenerateWord(size: real, max: real, s: Wrap, word: string)
    requires max <= 0.0 && word != "" && s.lines <= 1 && (size <= 0.0 ==> s.used <= 0.0)
    ensures var t := AddWord(FontOf(size), max, s, word);
      && (t.endless <==> s.endless || (max == 0.0 && size > 0.0))
      && t.lines <= 1 && (size <= 0.0 ==> t.used <= 0.0)
  {
    WidthSign(size, word);
    var w := Width(FontOf(size), word);
    if max < 0.0 && w > max {
      RestIsSmall(w, max);
      LinesOnNegative(w, max, w / max);
    }
  }

  lemma WidthSign(size: real, word: string)
    requires word != ""
    ensures size > 0.0 <==> Width(FontOf(size), word) > 0.0
    ensures size < 0.0 <==> Width(FontOf(size), word) < 0.0
  {
    ProductSign(|word| as real, FontOf(size).charWidth);
    FontWidths(size);
  }

  lemma ProductSign(n: real, x: real)
    requires n > 0.0
    ensures (n * x > 0.0 <==> x > 0.0) && (n * x < 0.0 <==> x < 0.0)
  {
  }

  lemma LinesOnNegative(w: real, max: real, q: real)
    requires max < 0.0 && w > max && q * max == w
    ensures if w < 0.0 then Ceil(q) == 1 else Ceil(q) <= 0
  {
    ProductSign(-max, q);
    ProductSign(-max, 1.0 - q);
    assert -max * q == -w && -max * (1.0 - q) == w - max;
  }

  /** Appending a word never lowers the estimate. */
  lemma AppendingNeverLowers(size: real, max: real, words: seq<string>, word: string)
    requires Words(words + [word])
    ensures Estimate(size, max, words) <= Estimate(size, max, words + [word])
  {
    assert (words + [word])[..|words|] == words;
    assert Words(words) by {
      assert forall i :: 0 <= i < |words| ==> words[i] == (words + [word])[i];
    }
    if max <= 0.0 {
      DegenerateWidth(size, max, words);
      DegenerateWidth(size, max, words + [word]);
    } else if Width(FontOf(size), word) > max {
      OverlongWord(Width(FontOf(size), word), max);
    }
  }

  // ---------------------------------------------------------------- no layout needs fewer lines

  /** Placing a word on a new line or on the current one; an overlong word is broken as the estimate breaks it. */
  function Place(font: Font, max: real, s: Wrap, word: string, newLine: bool): Wrap
    requires max > 0.0
  {
    var w := Width(font, word);
    if w > max then AddWord(font, max, s, word)
    else if newLine then s.(lines := s.lines + 1, used := w)
    else s.(used := s.used + (if s.used > 0.0 then font.spaceWidth else 0.0) + w)
  }

  /** A layout says for each word whether it starts a new line. */
  function Layout(font: Font, max: real, words: seq<string>, breaks: seq<bool>): Wrap
    requires max > 0.0 && |breaks| == |words|
  {
    if words == [] then START
    else
      var before := Layout(font, max, words[..|words| - 1], breaks[..|words| - 1]);
      Place(font, max, before, words[|words| - 1], breaks[|words| - 1])
  }

  /** No word that is placed whole goes over the edge. */
  predicate Fits(font: Font, max: real, words: seq<string>, breaks: seq<bool>)
    requires max > 0.0 && |breaks| == |words|
  {
    words == [] ||
    (&& Fits(font, max, words[..|words| - 1], breaks[..|words| - 1])
     && (Width(font, words[|words| - 1]) <= max ==> Layout(font, max, words, breaks).used <= max + 0.5))
  }

  /** Fewer lines, or as many with no more on the last one. */
  predicate Ahead(s: Wrap, t: Wrap) {
    s.lines < t.lines || (s.lines == t.lines && s.used <= t.used)
  }

  lemma StaysAhead(font: Font, max: real, s: Wrap, t: Wrap, word: string, newLine: bool)
    requires font.charWidth > 0.0 && font.spaceWidth >= 0.0 && max > 0.0 && word != ""
    requires Ahead(s, t) && s.used >= 0.0 && t.used >= 0.0 && (s.used > 0.0 <==> t.used > 0.0)
    requires Width(font, word) <= max ==> Place(font, max, t, word, newLine).used <= max + 0.5
    ensures var s', t' := AddWord(font, max, s, word), Place(font, max, t, word, newLine);
      Ahead(s', t') && s'.used > 0.0 && t'.used > 0.0
  {
    WidthIsPositive(font, word);
    if Width(font, word) > max {
      OverlongWord(Width(font, word), max);
    }
  }

  lemma {:induction false} NoLayoutIsAhead(font: Font, max: real, words: seq<string>, breaks: seq<bool>)
    requires font.charWidth > 0.0 && font.spaceWidth >= 0.0 && max > 0.0 && Words(words)
    requires |breaks| == |words| && Fits(font, max, words, breaks)
    ensures var s, t := WrapWords(font, max, words), Layout(font, max, words, breaks);
      Ahead(s, t) && (if words == [] then s.used == t.used == 0.0 else s.used > 0.0 && t.used > 0.0)
  {
    if words != [] {
      var init := words[..|words| - 1];
      NoLayoutIsAhead(font, max, init, breaks[..|words| - 1]);
      StaysAhead(font, max, WrapWords(font, max, init), Layout(font, max, init, breaks[..|words| - 1]),
                 words[|words| - 1], breaks[|words| - 1]);
    }
  }

  /** The wrap is itself a layout that fits. */
  lemma {:induction false} WrapIsALayout(font: Font, max: real, words: seq<string>) returns (breaks: seq<bool>)
    requires max > 0.0
    ensures |breaks| == |words| && Fits(font, max, words, breaks)
    ensures Layout(font, max, words, breaks) == WrapWords(font, max, words)
  {
    if words == [] {
      breaks := [];
    } else {
      var init, word := words[..|words| - 1], words[|words| - 1];
      var before := WrapIsALayout(font, max, init);
      var wrapped := WrapWords(font, max, init);
      breaks := before + [AddWord(font, max, wrapped, word).lines > wrapped.lines];
      assert breaks[..|words| - 1] == before;
    }
  }

  /** The estimate itself is the least number of lines of any layout, or the cap if every layout needs more. */
  lemma EstimateIsLeastUpToCap(size: real, max: real, words: seq<string>)
    requires size > 0.0 && max > 0.0 && Words(words)
    ensures forall breaks :: |breaks| == |words| && Fits(FontOf(size), max, words, breaks) ==>
      Estimate(size, max, words) <= Layout(FontOf(size), max, words, breaks).lines
    ensures Estimate(size, max, words) == MAX_LINES || exists breaks ::
      (|breaks| == |words| && Fits(FontOf(size), max, words, breaks)
       && Layout(FontOf(size), max, words, breaks).lines == Estimate(size, max, words))
  {
    EstimateIsLeast(FontOf(size), max, words);
    LinesHoldTheWords(FontOf(size), max, words);
    NeverEndless(FontOf(size), max, words);
  }

  lemma {:induction false} NeverEndless(font: Font, max: real, words: seq<string>)
    requires max > 0.0
    ensures !WrapWords(font, max, words).endless
  {
    if words != [] {
      NeverEndless(font, max, words[..|words| - 1]);
    }
  }

  /** Before the cap, the estimate is the least number of lines in which the words can be laid out. */
  lemma EstimateIsLeast(font: Font, max: real, words: seq<string>)
    requires font.charWidth > 0.0 && font.spaceWidth >= 0.0 && max > 0.0 && Words(words)
    ensures exists breaks ::
      (|breaks| == |words| && Fits(font, max, words, breaks)
       && Layout(font, max, words, breaks).lines == WrapWords(font, max, words).lines)
    ensures forall breaks :: |breaks| == |words| && Fits(font, max, words, breaks) ==>
      WrapWords(font, max, words).lines <= Layout(font, max, words, breaks).lines
  {
    var greedy := WrapIsALayout(font, max, words);
    forall breaks | |breaks| == |words| && Fits(font, max, words, breaks)
      ensures WrapWords(font, max, words).lines <= Layout(font, max, words, breaks).lines
    {
      NoLayoutIsAhead(font, max, words, breaks);
    }
  }
}
