/** The parts of Python's string toolkit that the dashboard's probes lean on:
    `str.isspace`, `str.strip`, `str.split(sep)`, `str.split()`,
    `str.startswith`, `str.isdigit` and the built-in `int()` on base-10 text,
    the last two restricted to the ASCII digits; `int()` skips slightly
    less whitespace than `str.strip` does. */
module Text {
  import opened Wrappers

  /** `str.isspace` for one character: TAB through CR, the four ASCII
      information separators, SPACE, NEL, NBSP and the Unicode space
      separators and line/paragraph separators. */
  predicate IsSpace(c: char) {
    var n := c as int;
    9 <= n <= 13 || 28 <= n <= 32 || n == 0x85 || n == 0xA0 || n == 0x1680
    || 0x2000 <= n <= 0x200A || n == 0x2028 || n == 0x2029 || n == 0x202F
    || n == 0x205F || n == 0x3000
  }

  predicate IsDigit(c: char) {
    '0' <= c <= '9'
  }

  /** `str.isdigit` restricted to ASCII: at least one character, and every
      character one of `0`-`9`. */
  predicate IsDigits(s: string) {
    |s| > 0 && forall i | 0 <= i < |s| :: IsDigit(s[i])
  }

  predicate NoSpace(s: string) {
    forall i | 0 <= i < |s| :: !IsSpace(s[i])
  }

  /** `str.startswith`. */
  predicate StartsWith(s: string, prefix: string) {
    |prefix| <= |s| && s[..|prefix|] == prefix
  }

  // ---------------------------------------------------------------- strip

  function TrimStart(s: string): (r: string)
    ensures |r| <= |s|
    ensures r == [] || !IsSpace(r[0])
    ensures forall i | 0 <= i < |s| - |r| :: IsSpace(s[i])
  {
    if s != [] && IsSpace(s[0]) then TrimStart(s[1..]) else s
  }

  function TrimEnd(s: string): (r: string)
    ensures |r| <= |s|
    ensures r == [] || !IsSpace(r[|r| - 1])
    ensures forall i | |r| <= i < |s| :: IsSpace(s[i])
  {
    if s != [] && IsSpace(s[|s| - 1]) then TrimEnd(s[..|s| - 1]) else s
  }

  /** What `TrimStart` keeps is a suffix of its input. */
  lemma {:induction false} TrimStartIsSuffix(s: string)
    ensures TrimStart(s) == s[|s| - |TrimStart(s)|..]
  {
    if s != [] && IsSpace(s[0]) {
      TrimStartIsSuffix(s[1..]);
    }
  }

  /** What `TrimEnd` keeps is a prefix of its input. */
  lemma {:induction false} TrimEndIsPrefix(s: string)
    ensures TrimEnd(s) == s[..|TrimEnd(s)|]
  {
    if s != [] && IsSpace(s[|s| - 1]) {
      TrimEndIsPrefix(s[..|s| - 1]);
    }
  }

  /** `str.strip()`: `s` without the whitespace at either end; only
      whitespace is lost. */
  function Strip(s: string): (r: string)
    ensures r == [] || (!IsSpace(r[0]) && !IsSpace(r[|r| - 1]))
  {
    var t := TrimStart(s);
    TrimEndIsPrefix(t);
    TrimEnd(t)
  }

  lemma {:induction false} TrimStartKeepsText(s: string)
    ensures Squeeze(TrimStart(s)) == Squeeze(s)
  {
    if s != [] && IsSpace(s[0]) {
      TrimStartKeepsText(s[1..]);
    }
  }

  lemma {:induction false} TrimEndKeepsText(s: string)
    ensures Squeeze(TrimEnd(s)) == Squeeze(s)
  {
    if s != [] && IsSpace(s[|s| - 1]) {
      var init := s[..|s| - 1];
      TrimEndKeepsText(init);
      assert s == init + [s[|s| - 1]];
      SqueezeAppend(init, [s[|s| - 1]]);
      assert Squeeze([s[|s| - 1]]) == [];
    }
  }

  /** Stripping loses only whitespace. */
  lemma StripKeepsText(s: string)
    ensures Squeeze(Strip(s)) == Squeeze(s)
  {
    TrimStartKeepsText(s);
    TrimEndKeepsText(TrimStart(s));
  }

  /** `strip()` keeps one contiguous piece of `s`, starting at `i`, with
      only whitespace before it and only whitespace after it. */
  lemma StripIsPiece(s: string)
    ensures var i := |s| - |TrimStart(s)|;
      var r := Strip(s);
      && i + |r| <= |s|
      && r == s[i..i + |r|]
      && (forall k | 0 <= k < i :: IsSpace(s[k]))
      && (forall k | i + |r| <= k < |s| :: IsSpace(s[k]))
  {
    var t := TrimStart(s);
    TrimStartIsSuffix(s);
    TrimEndIsPrefix(t);
    PrefixOfSuffix(s, t, Strip(s));
  }

  lemma PrefixOfSuffix(s: string, t: string, r: string)
    requires |t| <= |s| && t == s[|s| - |t|..]
    requires |r| <= |t| && r == t[..|r|]
    requires forall k | |r| <= k < |t| :: IsSpace(t[k])
    ensures var i := |s| - |t|;
      && r == s[i..i + |r|]
      && (forall k | i + |r| <= k < |s| :: IsSpace(s[k]))
  {
    var i := |s| - |t|;
    forall k | i + |r| <= k < |s|
      ensures IsSpace(s[k])
    {
      assert s[k] == t[k - i];
    }
  }

  lemma StripNoSpace(s: string)
    requires NoSpace(s)
    ensures Strip(s) == s
  {
  }

  // ----------------------------------------------------------- split(sep)

  /** How many times `c` occurs in `s`. */
  function Count(s: string, c: char): (n: nat)
    ensures n <= |s|
    ensures n > 0 <==> c in s
  {
    if s == [] then 0 else (if s[0] == c then 1 else 0) + Count(s[1..], c)
  }

  /** `s.split(sep)`: the pieces between occurrences of `sep`, one more
      piece than there are separators, none containing the separator. */
  function Split(s: string, sep: char): (parts: seq<string>)
    ensures |parts| == Count(s, sep) + 1
    ensures forall p | p in parts :: sep !in p
  {
    if s == [] then [[]]
    else
      var rest := Split(s[1..], sep);
      if s[0] == sep then [[]] + rest else [[s[0]] + rest[0]] + rest[1..]
  }

  /** `sep.join(parts)`. */
  function Join(parts: seq<string>, sep: char): string
    requires |parts| > 0
  {
    if |parts| == 1 then parts[0] else parts[0] + [sep] + Join(parts[1..], sep)
  }

  /** Joining the pieces of a split gives back the original text. */
  lemma {:induction false} SplitThenJoin(s: string, sep: char)
    ensures Join(Split(s, sep), sep) == s
  {
    if s != [] {
      var rest := Split(s[1..], sep);
      SplitThenJoin(s[1..], sep);
      assert s == [s[0]] + s[1..];
      if s[0] == sep {
        JoinEmptyFirst(rest, sep);
      } else {
        JoinExtendFirst(s[0], rest, sep);
      }
    }
  }

  lemma JoinEmptyFirst(rest: seq<string>, sep: char)
    requires |rest| > 0
    ensures Join([[]] + rest, sep) == [sep] + Join(rest, sep)
  {
    assert ([[]] + rest)[1..] == rest;
  }

  lemma JoinExtendFirst(c: char, rest: seq<string>, sep: char)
    requires |rest| > 0
    ensures Join([[c] + rest[0]] + rest[1..], sep) == [c] + Join(rest, sep)
  {
    var parts := [[c] + rest[0]] + rest[1..];
    if |rest| > 1 {
      assert parts[1..] == rest[1..];
    }
  }

  lemma {:induction false} SplitNoSeparator(w: string, sep: char)
    requires sep !in w
    ensures Split(w, sep) == [w]
  {
    if w != [] {
      SplitNoSeparator(w[1..], sep);
      assert [w[0]] + w[1..] == w;
    }
  }

  lemma {:induction false} SplitAfterPiece(w: string, t: string, sep: char)
    requires sep !in w
    ensures Split(w + [sep] + t, sep) == [w] + Split(t, sep)
  {
    var s := w + [sep] + t;
    if w == [] {
      assert s[1..] == t;
    } else {
      assert s[1..] == w[1..] + [sep] + t;
      SplitAfterPiece(w[1..], t, sep);
      assert [w[0]] + w[1..] == w;
    }
  }

  /** Splitting a join of separator-free pieces gives back the pieces. */
  lemma {:induction false} JoinThenSplit(parts: seq<string>, sep: char)
    requires |parts| > 0
    requires forall p | p in parts :: sep !in p
    ensures Split(Join(parts, sep), sep) == parts
  {
    if |parts| == 1 {
      SplitNoSeparator(parts[0], sep);
    } else {
      JoinThenSplit(parts[1..], sep);
      SplitAfterPiece(parts[0], Join(parts[1..], sep), sep);
      assert [parts[0]] + parts[1..] == parts;
    }
  }

  // -------------------------------------------------------------- split()

  /** The longest prefix of `s` holding no whitespace. */
  function Word(s: string): (w: string)
    ensures |w| <= |s| && w == s[..|w|]
    ensures NoSpace(w)
    ensures |w| == |s| || IsSpace(s[|w|])
  {
    if s == [] || IsSpace(s[0]) then [] else [s[0]] + Word(s[1..])
  }

  /** `s.split()`: the maximal runs of non-whitespace, in order; every
      field is non-empty and holds no whitespace. */
  function Fields(s: string): (fs: seq<string>)
    ensures forall f | f in fs :: f != [] && NoSpace(f)
    decreases |s|
  {
    if s == [] then []
    else if IsSpace(s[0]) then Fields(s[1..])
    else
      var w := Word(s);
      [w] + Fields(s[|w|..])
  }

  function Flatten(fs: seq<string>): string {
    if fs == [] then [] else fs[0] + Flatten(fs[1..])
  }

  /** `s` with every whitespace character removed. */
  function Squeeze(s: string): string {
    if s == [] then [] else (if IsSpace(s[0]) then [] else [s[0]]) + Squeeze(s[1..])
  }

  lemma {:induction false} SqueezeAppend(a: string, b: string)
    ensures Squeeze(a + b) == Squeeze(a) + Squeeze(b)
  {
    if a != [] {
      var head := if IsSpace(a[0]) then [] else [a[0]];
      assert (a + b)[0] == a[0];
      assert (a + b)[1..] == a[1..] + b;
      SqueezeAppend(a[1..], b);
      calc {
        Squeeze(a + b);
        head + Squeeze(a[1..] + b);
        head + (Squeeze(a[1..]) + Squeeze(b));
        (head + Squeeze(a[1..])) + Squeeze(b);
        Squeeze(a) + Squeeze(b);
      }
    } else {
      assert a + b == b;
    }
  }

  lemma {:induction false} SqueezeNoSpace(w: string)
    requires NoSpace(w)
    ensures Squeeze(w) == w
  {
    if w != [] {
      SqueezeNoSpace(w[1..]);
    }
  }

  /** `split()` loses only whitespace: the fields, put back together,
      are the text without its whitespace. */
  lemma {:induction false} FieldsKeepText(s: string)
    ensures Flatten(Fields(s)) == Squeeze(s)
    decreases |s|
  {
    if s != [] {
      if IsSpace(s[0]) {
        FieldsKeepText(s[1..]);
      } else {
        var w := Word(s);
        var rest := s[|w|..];
        FieldsKeepText(rest);
        assert ([w] + Fields(rest))[1..] == Fields(rest);
        assert s == w + rest;
        SqueezeAppend(w, rest);
        SqueezeNoSpace(w);
      }
    }
  }

  /** The first word of a text is not changed by what follows it, once the
      word has ended inside the text or what follows starts with whitespace. */
  lemma {:induction false} WordExtend(a: string, t: string)
    requires |Word(a)| < |a| || t == [] || IsSpace(t[0])
    ensures Word(a + t) == Word(a)
  {
    if a == [] {
      assert a + t == t;
    } else if !IsSpace(a[0]) {
      assert (a + t)[0] == a[0];
      assert (a + t)[1..] == a[1..] + t;
      WordExtend(a[1..], t);
    }
  }

  /** A single word without whitespace is its own only field. */
  lemma FieldsOfWord(w: string)
    requires w != [] && NoSpace(w)
    ensures Fields(w) == [w]
  {
    assert Word(w) == w;
    assert w[|w|..] == [];
  }

  /** `split()` cuts at every whitespace character: the fields on either
      side of one are the fields of the two sides. */
  lemma FieldsAtSpace(a: string, c: char, b: string)
    requires IsSpace(c)
    ensures Fields(a + [c] + b) == Fields(a) + Fields(b)
  {
    var u := [c] + b;
    assert a + [c] + b == a + u;
    assert u[1..] == b;
    FieldsBeforeSpace(a, u);
  }

  lemma {:induction false} FieldsBeforeSpace(a: string, u: string)
    requires u != [] && IsSpace(u[0])
    ensures Fields(a + u) == Fields(a) + Fields(u[1..])
    decreases |a|
  {
    if a == [] {
      assert a + u == u;
      assert u == [u[0]] + u[1..];
      FieldsSkip(u[0], u[1..]);
    } else if IsSpace(a[0]) {
      FieldsBeforeSpace(a[1..], u);
      FieldsSpaceCase(a, u);
    } else {
      FieldsBeforeSpace(a[|Word(a)|..], u);
      FieldsWordCase(a, u);
    }
  }

  lemma FieldsSpaceCase(a: string, u: string)
    requires a != [] && IsSpace(a[0]) && u != []
    requires Fields(a[1..] + u) == Fields(a[1..]) + Fields(u[1..])
    ensures Fields(a + u) == Fields(a) + Fields(u[1..])
  {
    FieldsSkipFront(a, u);
  }

  lemma FieldsSkipFront(a: string, u: string)
    requires a != [] && IsSpace(a[0])
    ensures Fields(a + u) == Fields(a[1..] + u)
    ensures Fields(a) == Fields(a[1..])
  {
    var c, t := a[0], a[1..];
    assert a == [c] + t;
    assert a + u == [c] + (t + u);
    FieldsSkip(c, t + u);
    FieldsSkip(c, t);
  }

  lemma FieldsWordCase(a: string, u: string)
    requires a != [] && !IsSpace(a[0]) && u != [] && IsSpace(u[0])
    requires Fields(a[|Word(a)|..] + u) == Fields(a[|Word(a)|..]) + Fields(u[1..])
    ensures Fields(a + u) == Fields(a) + Fields(u[1..])
  {
    FieldsTakeFront(a, u);
  }

  lemma FieldsTakeFront(a: string, u: string)
    requires a != [] && !IsSpace(a[0]) && u != [] && IsSpace(u[0])
    ensures Fields(a + u) == [Word(a)] + Fields(a[|Word(a)|..] + u)
    ensures Fields(a) == [Word(a)] + Fields(a[|Word(a)|..])
  {
    WordThenSpace(a, u);
    FieldsTake(a + u);
    FieldsTake(a);
  }

  /** A word that starts `a` is still the first word once a space follows `a`. */
  lemma WordThenSpace(a: string, u: string)
    requires a != [] && !IsSpace(a[0]) && u != [] && IsSpace(u[0])
    ensures (a + u)[0] == a[0]
    ensures Word(a + u) == Word(a)
    ensures (a + u)[|Word(a)|..] == a[|Word(a)|..] + u
  {
    WordExtend(a, u);
  }

  /** `split()` undoes `' '.join` of words without whitespace. */
  lemma {:induction false} FieldsOfJoin(ws: seq<string>)
    requires |ws| > 0
    requires forall w | w in ws :: w != [] && NoSpace(w)
    ensures Fields(Join(ws, ' ')) == ws
  {
    assert ws[0] in ws;
    FieldsOfWord(ws[0]);
    if |ws| > 1 {
      assert forall w | w in ws[1..] :: w in ws;
      FieldsOfJoin(ws[1..]);
      FieldsAtSpace(ws[0], ' ', Join(ws[1..], ' '));
      assert [ws[0]] + ws[1..] == ws;
    }
  }

  /** One step of `Fields`: skip a leading space or take the leading word. */
  lemma FieldsSkip(c: char, t: string)
    requires IsSpace(c)
    ensures Fields([c] + t) == Fields(t)
  {
    assert ([c] + t)[1..] == t;
  }

  lemma FieldsTake(s: string)
    requires s != [] && !IsSpace(s[0])
    ensures Fields(s) == [Word(s)] + Fields(s[|Word(s)|..])
  {
  }

  /** Leading whitespace does not change the fields. */
  lemma {:induction false} FieldsTrimStart(s: string)
    ensures Fields(TrimStart(s)) == Fields(s)
  {
    if s != [] && IsSpace(s[0]) {
      FieldsTrimStart(s[1..]);
    }
  }

  /** The first word runs at least as far as a whitespace-free prefix. */
  lemma WordCovers(t: string, n: nat)
    requires n <= |t| && NoSpace(t[..n])
    ensures n <= |Word(t)|
  {
  }

  /** Trailing whitespace never reaches into the first word. */
  lemma WordBeforeTrimEnd(t: string)
    requires t != [] && !IsSpace(t[0])
    ensures |Word(t)| <= |TrimEnd(t)|
  {
    var w := Word(t);
    assert w != [];
    assert t[|w| - 1] == w[|w| - 1];
  }

  /** For a prefix `p` without whitespace, `s.strip().startswith(p)` holds
      exactly when `s` has a first field and that field starts with `p`. */
  lemma StripStartsAsFirstField(s: string, p: string)
    requires p != [] && NoSpace(p)
    ensures StartsWith(Strip(s), p) <==> Fields(s) != [] && StartsWith(Fields(s)[0], p)
  {
    var t := TrimStart(s);
    FieldsTrimStart(s);
    var r := TrimEnd(t);
    assert Strip(s) == r;
    if t != [] {
      var w := Word(t);
      FieldsTake(t);
      TrimEndIsPrefix(t);
      WordBeforeTrimEnd(t);
      if StartsWith(r, p) {
        assert t[..|p|] == r[..|p|];
        WordCovers(t, |p|);
        assert w[..|p|] == t[..|p|];
      }
      if StartsWith(w, p) {
        assert r[..|p|] == t[..|p|];
        assert w[..|p|] == t[..|p|];
      }
    }
  }

  // ---------------------------------------------------------------- int()

  /** The digit body that `int()` accepts in base 10: ASCII digits, with
      single underscores allowed between two digits. */
  predicate IsNumeral(d: string)
    decreases |d|
  {
    && |d| > 0 && IsDigit(d[|d| - 1])
    && (|d| == 1
        || IsNumeral(d[..|d| - 1])
        || (|d| > 2 && d[|d| - 2] == '_' && IsNumeral(d[..|d| - 2])))
  }

  /** A run of digits is a numeral. */
  lemma {:induction false} DigitsAreNumeral(d: string)
    requires IsDigits(d)
    ensures IsNumeral(d)
    decreases |d|
  {
    if |d| > 1 {
      DigitsAreNumeral(d[..|d| - 1]);
    }
  }

  /** The number a numeral denotes, underscores ignored. */
  function DigitsValue(d: string): nat {
    if d == [] then 0
    else
      var last := d[|d| - 1];
      var prefix := DigitsValue(d[..|d| - 1]);
      if IsDigit(last) then prefix * 10 + (last as int - '0' as int) else prefix
  }

  /** The whitespace `int()` skips around its argument: the ASCII
      whitespace TAB through CR and SPACE, and every non-ASCII character
      `str.isspace` accepts. Unlike `str.strip`, `int()` does not skip the
      four ASCII information separators (28 to 31). */
  predicate IsIntSpace(c: char) {
    IsSpace(c) && !IsSeparator(c)
  }

  /** The ASCII information separators FS, GS, RS and US. */
  predicate IsSeparator(c: char) {
    28 <= c as int <= 31
  }

  predicate NoSeparator(s: string) {
    forall i | 0 <= i < |s| :: !IsSeparator(s[i])
  }

  function IntTrimStart(s: string): (r: string)
    ensures |r| <= |s|
    ensures r == [] || !IsIntSpace(r[0])
    ensures forall i | 0 <= i < |s| - |r| :: IsIntSpace(s[i])
  {
    if s != [] && IsIntSpace(s[0]) then IntTrimStart(s[1..]) else s
  }

  function IntTrimEnd(s: string): (r: string)
    ensures |r| <= |s|
    ensures r == [] || !IsIntSpace(r[|r| - 1])
    ensures forall i | |r| <= i < |s| :: IsIntSpace(s[i])
  {
    if s != [] && IsIntSpace(s[|s| - 1]) then IntTrimEnd(s[..|s| - 1]) else s
  }

  /** The text `int()` goes on to read: `s` without the whitespace it
      skips at either end. */
  function IntStrip(s: string): (r: string)
    ensures r == [] || (!IsIntSpace(r[0]) && !IsIntSpace(r[|r| - 1]))
  {
    var t := IntTrimStart(s);
    IntTrimEndIsPrefix(t);
    IntTrimEnd(t)
  }

  lemma {:induction false} IntTrimEndIsPrefix(s: string)
    ensures IntTrimEnd(s) == s[..|IntTrimEnd(s)|]
  {
    if s != [] && IsIntSpace(s[|s| - 1]) {
      IntTrimEndIsPrefix(s[..|s| - 1]);
    }
  }

  /** Python's `int(s)` on base-10 text: surrounding whitespace allowed,
      an optional sign, then a numeral; `None` where `int()` rejects the
      text's form. The interpreter's cap on the number of digits (4300 by
      default) is not modelled, so numerals longer than that read here as
      their value although `int()` raises on them. */
  function ParseInt(s: string): Option<int> {
    var t := IntStrip(s);
    if t != [] && (t[0] == '+' || t[0] == '-') then
      if IsNumeral(t[1..]) then
        var v: int := DigitsValue(t[1..]);
        Some(if t[0] == '-' then -v else v)
      else None
    else if IsNumeral(t) then Some(DigitsValue(t))
    else None
  }

  /** `int()` skips its own whitespace, so removing that first changes
      nothing. */
  lemma ParseIntPadding(s: string)
    ensures ParseInt(IntStrip(s)) == ParseInt(s)
  {
    IntStripIdempotent(s);
  }

  lemma IntStripIdempotent(s: string)
    ensures IntStrip(IntStrip(s)) == IntStrip(s)
  {
    var r := IntStrip(s);
    assert IntTrimStart(r) == r;
    assert IntTrimEnd(r) == r;
  }

  /** On text without information separators, `strip()` removes exactly
      what `int()` skips, so `int(s.strip())` is `int(s)`. */
  lemma StripBeforeParse(s: string)
    requires NoSeparator(s)
    ensures ParseInt(Strip(s)) == ParseInt(s)
  {
    TrimStartAgrees(s);
    TrimStartIsSuffix(s);
    var t := TrimStart(s);
    assert forall i | 0 <= i < |t| :: t[i] == s[|s| - |t| + i];
    TrimEndAgrees(t);
    assert Strip(s) == IntStrip(s);
    ParseIntPadding(s);
  }

  /** With an information separator at its edge, `strip()` removes it but
      `int()` rejects it: `int("\x1c5")` raises, `int("\x1c5".strip())`
      is 5. */
  lemma SeparatorStripped()
    ensures ParseInt("\U{1C}5") == None
    ensures ParseInt(Strip("\U{1C}5")) == Some(5)
  {
    var s := "\U{1C}5";
    assert IntTrimStart(s) == s;
    assert s[..1] == "\U{1C}";
    assert IntTrimEnd(s) == s;
    assert !IsNumeral(s);
    assert s[1..] == "5";
    assert TrimStart(s) == "5";
    StripNoSpace("5");
    assert "5"[..0] == "";
  }

  lemma {:induction false} TrimStartAgrees(s: string)
    requires NoSeparator(s)
    ensures IntTrimStart(s) == TrimStart(s)
  {
    if s != [] && IsSpace(s[0]) {
      assert NoSeparator(s[1..]) by {
        assert forall i | 0 <= i < |s| - 1 :: s[1..][i] == s[i + 1];
      }
      TrimStartAgrees(s[1..]);
    }
  }

  lemma {:induction false} TrimEndAgrees(s: string)
    requires NoSeparator(s)
    ensures IntTrimEnd(s) == TrimEnd(s)
  {
    if s != [] && IsSpace(s[|s| - 1]) {
      var init := s[..|s| - 1];
      assert NoSeparator(init) by {
        assert forall i | 0 <= i < |init| :: init[i] == s[i];
      }
      TrimEndAgrees(init);
    }
  }

  lemma IntStripNoSpace(s: string)
    requires NoSpace(s)
    ensures IntStrip(s) == s
  {
  }

  /** `int()` accepts surrounding whitespace, a sign and single
      underscores between digits. */
  lemma ParseIntAccepts()
    ensures ParseInt(" 42\n") == Some(42)
    ensures ParseInt("-7") == Some(-7)
    ensures ParseInt("+1_0") == Some(10)
  {
    PaddedNumber();
    NegativeNumber();
    UnderscoreNumber();
  }

  lemma NegativeNumber()
    ensures ParseInt("-7") == Some(-7)
  {
    assert "-7"[1..] == "7";
    assert "7"[..0] == "";
    IntStripNoSpace("-7");
  }

  lemma PaddedNumber()
    ensures ParseInt(" 42\n") == Some(42)
  {
    var padded := " 42\n";
    assert padded[1..] == "42\n";
    assert IntTrimStart(padded) == "42\n";
    assert "42\n"[..2] == "42";
    assert IntTrimEnd("42\n") == "42";
    assert "42"[..1] == "4";
    assert "4"[..0] == "";
    assert IsNumeral("42");
    assert DigitsValue("42") == 42;
  }

  lemma UnderscoreNumber()
    ensures ParseInt("+1_0") == Some(10)
  {
    var ten := "+1_0";
    IntStripNoSpace(ten);
    assert ten[1..] == "1_0";
    assert "1_0"[..1] == "1";
    assert "1_0"[..2] == "1_";
    assert "1_"[..1] == "1";
    assert "1"[..0] == "";
    assert IsNumeral("1_0");
    assert DigitsValue("1_0") == 10;
  }

  /** `int()` rejects the empty text, inner whitespace, a leading or
      doubled underscore and a sign alone. */
  lemma ParseIntRejects()
    ensures ParseInt("") == None
    ensures ParseInt("1 2") == None
    ensures ParseInt("_1") == None
    ensures ParseInt("1__0") == None
    ensures ParseInt("-") == None
  {
    IntStripNoSpace("");
    InnerSpaceRejected();
    LeadingUnderscoreRejected();
    DoubleUnderscoreRejected();
    SignAloneRejected();
  }

  lemma LeadingUnderscoreRejected()
    ensures ParseInt("_1") == None
  {
    IntStripNoSpace("_1");
    assert "_1"[..1] == "_";
  }

  lemma SignAloneRejected()
    ensures ParseInt("-") == None
  {
    IntStripNoSpace("-");
    assert "-"[1..] == "";
  }

  lemma InnerSpaceRejected()
    ensures ParseInt("1 2") == None
  {
    var s := "1 2";
    assert IntTrimStart(s) == s;
    assert IntTrimEnd(s) == s;
    assert s[..2] == "1 ";
    assert !IsNumeral(s);
  }

  lemma DoubleUnderscoreRejected()
    ensures ParseInt("1__0") == None
  {
    var s := "1__0";
    IntStripNoSpace(s);
    assert s[..3] == "1__";
    assert s[..2] == "1_";
    assert !IsNumeral(s);
  }

  function DigitChar(k: nat): (c: char)
    requires k < 10
    ensures IsDigit(c) && c as int - '0' as int == k
  {
    ('0' as int + k) as char
  }

  /** The base-10 text of a natural number, as `str(n)` writes it. */
  function Decimal(n: nat): (d: string)
    ensures IsDigits(d)
  {
    if n < 10 then [DigitChar(n)] else Decimal(n / 10) + [DigitChar(n % 10)]
  }

  lemma {:induction false} DecimalValue(n: nat)
    ensures DigitsValue(Decimal(n)) == n
  {
    var d := Decimal(n);
    if n < 10 {
      assert d[..0] == [];
    } else {
      assert d[..|d| - 1] == Decimal(n / 10);
      DecimalValue(n / 10);
    }
  }

  /** `int()` reads back what `str()` writes. */
  lemma ParseDecimal(n: nat)
    ensures ParseInt(Decimal(n)) == Some(n)
  {
    var d := Decimal(n);
    DecimalValue(n);
    DigitsAreNumeral(d);
    DigitsNoSpace(d);
    IntStripNoSpace(d);
  }

  /** `int()` reads back a minus sign followed by what `str()` writes. */
  lemma ParseNegativeDecimal(n: nat)
    ensures ParseInt("-" + Decimal(n)) == Some(-(n as int))
  {
    DecimalValue(n);
    ParseNegativeDigits(Decimal(n), n);
  }

  lemma ParseNegativeDigits(d: string, v: nat)
    requires IsDigits(d) && DigitsValue(d) == v
    ensures ParseInt("-" + d) == Some(-(v as int))
  {
    var m := "-" + d;
    assert m[0] == '-' && m[1..] == d;
    DigitsNoSpace(d);
    SignedNoSpace('-', d);
    IntStripNoSpace(m);
    DigitsAreNumeral(d);
  }

  lemma SignedNoSpace(sign: char, d: string)
    requires sign == '-' || sign == '+'
    requires NoSpace(d)
    ensures NoSpace([sign] + d)
  {
    var m := [sign] + d;
    forall i | 0 <= i < |m|
      ensures !IsSpace(m[i])
    {
      if i > 0 {
        assert m[i] == d[i - 1];
      }
    }
  }

  lemma DigitsNoSpace(d: string)
    requires IsDigits(d)
    ensures NoSpace(d)
  {
  }
}
