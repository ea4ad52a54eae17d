/** The parts of Go's `strings` package that the gateway's list-valued columns rely on:
    trimming, splitting and joining, and when a joined list reads back unchanged. */
module Text {

  /** `unicode.IsSpace`, as used by `strings.TrimSpace`. */
  predicate IsSpace(c: char) {
    || '\t' <= c <= '\r'
    || c == ' ' || c == '\U{0085}' || c == '\U{00A0}' || c == '\U{1680}'
    || '\U{2000}' <= c <= '\U{200A}'
    || c == '\U{2028}' || c == '\U{2029}' || c == '\U{202F}' || c == '\U{205F}' || c == '\U{3000}'
  }

  /** The characters that are trimmed, by their codes. */
  lemma SpaceMeans(c: char)
    ensures IsSpace(c) <==>
      c as int in {9, 10, 11, 12, 13, 32, 133, 160, 5760, 8232, 8233, 8239, 8287, 12288} || 8192 <= c as int <= 8202
  {
  }

  predicate Drops(s: string, drop: char -> bool) {
    forall i :: 0 <= i < |s| ==> drop(s[i])
  }

  /** `r` is what is left of `s` between two ends of dropped characters. */
  predicate Cuts(s: string, drop: char -> bool, r: string, i: nat, j: nat) {
    i <= j <= |s| && s[i..j] == r && Drops(s[..i], drop) && Drops(s[j..], drop)
  }

  lemma CutsMore(s: string, drop: char -> bool, r: string, i: nat, j: nat)
    ensures s != "" && drop(s[0]) && Cuts(s[1..], drop, r, i, j) ==> Cuts(s, drop, r, i + 1, j + 1)
    ensures s != "" && drop(s[|s| - 1]) && Cuts(s[..|s| - 1], drop, r, i, j) ==> Cuts(s, drop, r, i, j)
  {
  }

  /** Trimming takes away dropped characters at the two ends, and nothing else. */
  lemma {:induction false} TrimMeans(s: string, drop: char -> bool) returns (i: nat, j: nat)
    ensures Cuts(s, drop, Trim(s, drop), i, j) && Trimmed(Trim(s, drop), drop)
  {
    i, j := 0, |s|;
    if s != "" && drop(s[0]) {
      i, j := TrimMeans(s[1..], drop);
      CutsMore(s, drop, Trim(s, drop), i, j);
      i, j := i + 1, j + 1;
    } else if s != "" && drop(s[|s| - 1]) {
      i, j := TrimMeans(s[..|s| - 1], drop);
      CutsMore(s, drop, Trim(s, drop), i, j);
    }
  }

  function Is(sep: char): char -> bool {
    c => c == sep
  }

  predicate Trimmed(s: string, drop: char -> bool) {
    s == "" || (!drop(s[0]) && !drop(s[|s| - 1]))
  }

  /** Cuts the longest prefix and suffix made of dropped characters (`strings.TrimFunc`). */
  function Trim(s: string, drop: char -> bool): (r: string)
    ensures Trimmed(r, drop)
    ensures Trimmed(s, drop) ==> r == s
    ensures forall c :: c in r ==> c in s
    ensures r == "" <==> forall c :: c in s ==> drop(c)
  {
    if s == "" then ""
    else if drop(s[0]) then Trim(s[1..], drop)
    else if drop(s[|s| - 1]) then Trim(s[..|s| - 1], drop)
    else s
  }

  function TrimSpace(s: string): (r: string)
    ensures Trimmed(r, IsSpace)
    ensures Trimmed(s, IsSpace) ==> r == s
    ensures forall c :: c in r ==> c in s
  {
    Trim(s, IsSpace)
  }

  /** `strings.Split` on a one-character separator: the empty text is one empty piece. */
  function Split(s: string, sep: char): (r: seq<string>)
    ensures |r| >= 1
    ensures forall p :: p in r ==> sep !in p
    ensures forall p, c :: p in r && c in p ==> c in s
    ensures s != "" && s[0] != sep ==> r[0] != ""
  {
    if s == "" then [""]
    else
      var rest := Split(s[1..], sep);
      if s[0] == sep then [""] + rest else [[s[0]] + rest[0]] + rest[1..]
  }

  /** `strings.Join` on a one-character separator. */
  function Join(xs: seq<string>, sep: char): (r: string)
    ensures xs != [] && xs[0] != "" ==> r != "" && r[0] == xs[0][0]
    ensures xs != [] && xs[|xs| - 1] != "" ==> r != "" && r[|r| - 1] == xs[|xs| - 1][|xs[|xs| - 1]| - 1]
    ensures |xs| >= 2 ==> r != ""
  {
    if xs == [] then ""
    else if |xs| == 1 then xs[0]
    else xs[0] + [sep] + Join(xs[1..], sep)
  }

  /** How a stored list column is read: empty text is no element, otherwise outer separators
      are trimmed and the rest is split. */
  function Parse(text: string, sep: char): (r: seq<string>)
    ensures forall p :: p in r ==> sep !in p
  {
    if text == "" then [] else Split(Trim(text, Is(sep)), sep)
  }

  predicate Free(xs: seq<string>, sep: char) {
    forall x :: x in xs ==> sep !in x
  }

  /** Neither the first nor the last element is blank. */
  predicate SolidEnds(xs: seq<string>) {
    xs == [] || (xs[0] != "" && xs[|xs| - 1] != "")
  }

  lemma {:induction false} SplitPiece(x: string, rest: string, sep: char)
    requires sep !in x
    ensures Split(x + [sep] + rest, sep) == [x] + Split(rest, sep)
    ensures Split(x, sep) == [x]
  {
    if x == "" {
      assert x + [sep] + rest == [sep] + rest;
      assert ([sep] + rest)[1..] == rest;
    } else {
      SplitPiece(x[1..], rest, sep);
      var whole := x + [sep] + rest;
      assert whole[1..] == x[1..] + [sep] + rest;
      assert [x[0]] + x[1..] == x;
    }
  }

  lemma {:induction false} SplitJoin(xs: seq<string>, sep: char)
    requires xs != [] && Free(xs, sep)
    ensures Split(Join(xs, sep), sep) == xs
  {
    if |xs| == 1 {
      SplitPiece(xs[0], "", sep);
    } else {
      assert Free(xs[1..], sep);
      SplitJoin(xs[1..], sep);
      SplitJoinStep(xs, sep);
    }
  }

  lemma SplitJoinStep(xs: seq<string>, sep: char)
    requires |xs| >= 2 && sep !in xs[0] && Split(Join(xs[1..], sep), sep) == xs[1..]
    ensures Split(Join(xs, sep), sep) == xs
  {
    SplitPiece(xs[0], Join(xs[1..], sep), sep);
    assert [xs[0]] + xs[1..] == xs;
  }

  lemma {:induction false} JoinSplit(s: string, sep: char)
    ensures Join(Split(s, sep), sep) == s
  {
    if s != "" {
      var rest := Split(s[1..], sep);
      JoinSplit(s[1..], sep);
      assert s == [s[0]] + s[1..];
      JoinGrows(rest, s[0], sep);
      assert ([""] + rest)[1..] == rest;
    }
  }

  /** A character put before the first element comes first in the text. */
  lemma JoinGrows(xs: seq<string>, c: char, sep: char)
    requires xs != []
    ensures Join([[c] + xs[0]] + xs[1..], sep) == [c] + Join(xs, sep)
  {
    assert ([[c] + xs[0]] + xs[1..])[1..] == xs[1..];
  }

  /** A separator at the end adds a blank element. */
  lemma {:induction false} SplitBack(s: string, sep: char)
    ensures Split(s + [sep], sep) == Split(s, sep) + [""]
  {
    var t := s + [sep];
    if s != "" {
      SplitBack(s[1..], sep);
      assert t[1..] == s[1..] + [sep];
    } else {
      assert t == [sep] && t[1..] == "";
    }
  }

  lemma SplitLastStep(s: string, sep: char)
    requires s != "" && Split(s[1..], sep)[|Split(s[1..], sep)| - 1] != ""
    ensures Split(s, sep)[|Split(s, sep)| - 1] != ""
  {
    var rest := Split(s[1..], sep);
    assert Split(s, sep) == (if s[0] == sep then [""] + rest else [[s[0]] + rest[0]] + rest[1..]);
  }

  lemma {:induction false} SplitLast(s: string, sep: char)
    requires s != "" && s[|s| - 1] != sep
    ensures var r := Split(s, sep); r[|r| - 1] != ""
  {
    if |s| > 1 {
      SplitLast(s[1..], sep);
      SplitLastStep(s, sep);
    }
  }

  /** Reading a column gives nothing, one blank element (a text of separators only), or a list
      with solid ends. */
  lemma ParseEnds(text: string, sep: char)
    ensures Parse(text, sep) == [""] || SolidEnds(Parse(text, sep))
    ensures Parse(text, sep) == [] <==> text == ""
    ensures Parse(text, sep) == [""] <==> text != "" && forall c :: c in text ==> c == sep
  {
    if text != "" {
      var t := Trim(text, Is(sep));
      if t == "" {
        assert forall c :: c in text ==> Is(sep)(c);
      } else {
        SplitLast(t, sep);
        assert Split(t, sep)[0] != "";
        assert !(forall c :: c in text ==> Is(sep)(c));
      }
    }
  }

  /** Writing a list of separator-free elements and reading it back is the identity exactly
      when its ends are not blank. */
  lemma ParseJoin(xs: seq<string>, sep: char)
    requires Free(xs, sep)
    ensures Parse(Join(xs, sep), sep) == xs <==> SolidEnds(xs)
  {
    var text := Join(xs, sep);
    if xs == [] {
    } else if SolidEnds(xs) {
      assert xs[0] in xs && xs[|xs| - 1] in xs;
      assert xs[0][0] in xs[0];
      assert xs[|xs| - 1][|xs[|xs| - 1]| - 1] in xs[|xs| - 1];
      assert Trimmed(text, Is(sep));
      SplitJoin(xs, sep);
    } else {
      ParseEnds(text, sep);
      if xs == [""] {
        assert text == "";
      }
    }
  }

  /** Reading a column, writing it and reading it again changes nothing. */
  lemma ParseJoinParse(text: string, sep: char)
    ensures Parse(Join(Parse(text, sep), sep), sep) == if Parse(text, sep) == [""] then [] else Parse(text, sep)
  {
    ParseEnds(text, sep);
    ParseJoin(Parse(text, sep), sep);
  }

  // ----- What any list reads back as

  /** Without the blank elements at either end. */
  function Strip(xs: seq<string>): (r: seq<string>)
    ensures SolidEnds(r) && |r| <= |xs|
    ensures forall x :: x in r ==> x in xs
    ensures r == [] <==> forall x :: x in xs ==> x == ""
  {
    if xs == [] then []
    else if xs[0] == "" then
      assert forall x :: x in xs <==> x == xs[0] || x in xs[1..];
      Strip(xs[1..])
    else if xs[|xs| - 1] == "" then
      assert forall x :: x in xs <==> x in xs[..|xs| - 1] || x == xs[|xs| - 1];
      Strip(xs[..|xs| - 1])
    else
      assert xs[0] in xs;
      xs
  }

  /** A lone blank element is written like none; of several blank ones, one is read back. */
  function Reread(xs: seq<string>): (r: seq<string>)
    ensures |r| <= |xs|
  {
    if xs == [] || xs == [""] then [] else if Strip(xs) == [] then [""] else Strip(xs)
  }

  lemma {:induction false} JoinLast(xs: seq<string>, sep: char)
    requires |xs| >= 2
    ensures Join(xs, sep) == Join(xs[..|xs| - 1], sep) + [sep] + xs[|xs| - 1]
  {
    var front, rest := xs[..|xs| - 1], xs[1..];
    assert Join(xs, sep) == xs[0] + [sep] + Join(rest, sep);
    if |xs| > 2 {
      JoinLast(rest, sep);
      assert front[1..] == rest[..|rest| - 1];
      var middle := Join(rest[..|rest| - 1], sep);
      assert Join(front, sep) == xs[0] + [sep] + middle;
      assert Join(rest, sep) == middle + [sep] + xs[|xs| - 1];
    } else {
      assert front == [xs[0]] && rest == [xs[1]];
    }
  }

  /** Trimming the joined text drops the blank elements at its ends. */
  lemma {:induction false} TrimJoin(xs: seq<string>, sep: char)
    requires Free(xs, sep)
    ensures Trim(Join(xs, sep), Is(sep)) == Join(Strip(xs), sep)
  {
    if |xs| >= 2 && xs[0] == "" {
      assert Free(xs[1..], sep);
      TrimJoin(xs[1..], sep);
      TrimFront(xs, sep);
    } else if |xs| >= 2 && xs[|xs| - 1] == "" {
      assert Free(xs[..|xs| - 1], sep);
      TrimJoin(xs[..|xs| - 1], sep);
      TrimBack(xs, sep);
    } else if xs != [] && xs[0] != "" {
      JoinTrimmed(xs, sep);
    }
  }

  lemma TrimFront(xs: seq<string>, sep: char)
    requires |xs| >= 2 && xs[0] == ""
    ensures Trim(Join(xs, sep), Is(sep)) == Trim(Join(xs[1..], sep), Is(sep))
  {
    assert Join(xs, sep)[1..] == Join(xs[1..], sep);
  }

  lemma TrimBack(xs: seq<string>, sep: char)
    requires |xs| >= 2 && Free(xs, sep) && xs[0] != "" && xs[|xs| - 1] == ""
    ensures Trim(Join(xs, sep), Is(sep)) == Trim(Join(xs[..|xs| - 1], sep), Is(sep))
  {
    var text := Join(xs, sep);
    JoinLast(xs, sep);
    assert xs[0] in xs && xs[0][0] in xs[0];
    assert text[..|text| - 1] == Join(xs[..|xs| - 1], sep);
  }

  lemma JoinTrimmed(xs: seq<string>, sep: char)
    requires Free(xs, sep) && xs != [] && SolidEnds(xs)
    ensures Trim(Join(xs, sep), Is(sep)) == Join(xs, sep)
  {
    assert xs[0] in xs && xs[|xs| - 1] in xs;
    assert xs[0][0] in xs[0];
    assert xs[|xs| - 1][|xs[|xs| - 1]| - 1] in xs[|xs| - 1];
    assert Trimmed(Join(xs, sep), Is(sep));
  }

  /** Reading back any written list of separator-free elements. */
  lemma ParseJoinReads(xs: seq<string>, sep: char)
    requires Free(xs, sep)
    ensures Parse(Join(xs, sep), sep) == Reread(xs)
    ensures Join(xs, sep) == "" <==> xs == [] || xs == [""]
  {
    TrimJoin(xs, sep);
    if Strip(xs) != [] {
      SplitJoin(Strip(xs), sep);
    }
  }

  /** Lists of separator-free elements are written alike only when they are equal. */
  lemma JoinInjective(xs: seq<string>, ys: seq<string>, sep: char)
    requires Free(xs, sep) && Free(ys, sep) && xs != [] && ys != []
    requires Join(xs, sep) == Join(ys, sep)
    ensures xs == ys
  {
    SplitJoin(xs, sep);
    SplitJoin(ys, sep);
  }
}
