/** String helpers the players use to turn a file name into display metadata:
    the title and artist derived from the name, the format label taken from the
    extension, and the case-insensitive search filter. The regular expressions
    of the source are written out as functions over characters; `\s` is
    JavaScript's white-space class and `.` excludes its line terminators. */
module Text {
  import opened Optional

  /** JavaScript's `\s`: white space and line terminators. `trim()` removes the same set. */
  predicate IsSpace(c: char) {
    c == ' ' || c == '\t' || c == '\n' || c == '\U{B}' || c == '\U{C}' || c == '\r' ||
    c == '\U{A0}' || c == '\U{1680}' || ('\U{2000}' <= c <= '\U{200A}') ||
    c == '\U{2028}' || c == '\U{2029}' || c == '\U{202F}' || c == '\U{205F}' ||
    c == '\U{3000}' || c == '\U{FEFF}'
  }

  /** The characters that `.` does not match. */
  predicate IsLineTerminator(c: char) {
    c == '\n' || c == '\r' || c == '\U{2028}' || c == '\U{2029}'
  }

  /** `\d`: ASCII digits only. */
  predicate IsDigit(c: char) {
    '0' <= c <= '9'
  }

  /** The characters `[-_]` that the title cleaner turns into spaces. */
  predicate IsSeparator(c: char) {
    c == '-' || c == '_'
  }

  /** `[-–]`: hyphen-minus or en dash, the artist/title separator. */
  predicate IsDash(c: char) {
    c == '-' || c == '\U{2013}'
  }

  /** `[\s.-]`: what may follow a leading track number. */
  predicate IsNumberTrailer(c: char) {
    IsSpace(c) || c == '.' || c == '-'
  }

  /** Every character of `s` from `lo` up to `hi` satisfies `p`. */
  predicate AllIn(s: string, lo: int, hi: int, p: char -> bool) {
    forall k :: lo <= k < hi && 0 <= k < |s| ==> p(s[k])
  }

  /** The end of the run of characters satisfying `p` that starts at `i`. */
  function SpanFrom(s: string, i: nat, p: char -> bool): (j: nat)
    requires i <= |s|
    ensures i <= j <= |s| && AllIn(s, i, j, p)
    ensures j == |s| || !p(s[j])
    decreases |s| - i
  {
    if i == |s| || !p(s[i]) then i else SpanFrom(s, i + 1, p)
  }

  /** The start of the run of characters satisfying `p` that ends at `j`,
      going no further back than `lo`. */
  function SpanBack(s: string, lo: nat, j: nat, p: char -> bool): (i: nat)
    requires lo <= j <= |s|
    ensures lo <= i <= j && AllIn(s, i, j, p)
    ensures i == lo || !p(s[i - 1])
    decreases j - lo
  {
    if j == lo || !p(s[j - 1]) then j else SpanBack(s, lo, j - 1, p)
  }

  /** Where `trim()` cuts: white space before `b.0` and from `b.1` on, and the
      kept part neither starts nor ends with white space. */
  function TrimBounds(s: string): (b: (nat, nat))
    ensures b.0 <= b.1 <= |s|
    ensures AllIn(s, 0, b.0, IsSpace) && AllIn(s, b.1, |s|, IsSpace)
    ensures b.0 < b.1 ==> !IsSpace(s[b.0]) && !IsSpace(s[b.1 - 1])
  {
    var i := SpanFrom(s, 0, IsSpace);
    (i, SpanBack(s, i, |s|, IsSpace))
  }

  /** `String.prototype.trim`. */
  function Trim(s: string): (r: string)
    ensures r == s[TrimBounds(s).0..TrimBounds(s).1]
  {
    s[TrimBounds(s).0..TrimBounds(s).1]
  }

  /** `.replace(/[-_]/g, ' ')` */
  function ReplaceSeparators(s: string): (r: string)
    ensures |r| == |s|
    ensures forall k :: 0 <= k < |s| ==> r[k] == if IsSeparator(s[k]) then ' ' else s[k]
  {
    if s == [] then []
    else [if IsSeparator(s[0]) then ' ' else s[0]] + ReplaceSeparators(s[1..])
  }

  /** The characters of `s` that are not white space, in order. */
  function NonSpaces(s: string): string {
    if s == [] then []
    else if IsSpace(s[0]) then NonSpaces(s[1..])
    else [s[0]] + NonSpaces(s[1..])
  }

  lemma {:induction false} NonSpacesAppend(a: string, b: string)
    ensures NonSpaces(a + b) == NonSpaces(a) + NonSpaces(b)
  {
    if a != [] {
      assert (a + b)[0] == a[0];
      assert (a + b)[1..] == a[1..] + b;
      NonSpacesAppend(a[1..], b);
    } else {
      assert a + b == b;
    }
  }

  lemma NonSpacesOfSpaces(s: string)
    requires AllIn(s, 0, |s|, IsSpace)
    ensures NonSpaces(s) == []
  {
    if s != [] {
      NonSpacesOfSpaces(s[1..]);
    }
  }

  /** A character that is not white space. */
  predicate IsWordChar(c: char) {
    !IsSpace(c)
  }

  /** The words of `s`: its maximal runs of non-space characters, in order. */
  function Words(s: string): seq<string>
    decreases |s|
  {
    if s == [] then []
    else if IsSpace(s[0]) then Words(s[1..])
    else
      var j := SpanFrom(s, 0, IsWordChar);
      [s[..j]] + Words(s[j..])
  }

  /** A run that starts one character later ends one character later. */
  lemma {:induction false} SpanFromShift(c: char, x: string, i: nat, p: char -> bool)
    requires i <= |x|
    ensures SpanFrom([c] + x, i + 1, p) == SpanFrom(x, i, p) + 1
    decreases |x| - i
  {
    assert ([c] + x)[i + 1..] == x[i..];
    if i < |x| {
      assert ([c] + x)[i + 1] == x[i];
      if p(x[i]) {
        SpanFromShift(c, x, i + 1, p);
      }
    }
  }

  /** A white-space character in front adds no word. */
  lemma WordsSpaceCons(c: char, x: string)
    requires IsSpace(c)
    ensures Words([c] + x) == Words(x)
  {
    assert ([c] + x)[1..] == x;
  }

  /** A non-space character in front starts a word of its own when `x` starts
      with white space or is empty, and otherwise joins the first word of `x`. */
  lemma WordsCons(c: char, x: string)
    requires !IsSpace(c)
    ensures x == [] || IsSpace(x[0]) ==> Words([c] + x) == [[c]] + Words(x)
    ensures x != [] && !IsSpace(x[0]) ==>
      Words(x) != [] && Words([c] + x) == [[c] + Words(x)[0]] + Words(x)[1..]
  {
    var y := [c] + x;
    assert y[1..] == x;
    if x == [] || IsSpace(x[0]) {
      assert SpanFrom(y, 1, IsWordChar) == 1;
      assert y[..1] == [c];
    } else {
      var k := SpanFrom(x, 0, IsWordChar);
      SpanFromShift(c, x, 0, IsWordChar);
      assert y[..k + 1] == [c] + x[..k];
      assert y[k + 1..] == x[k..];
    }
  }

  /** Leading white space contributes no word. */
  lemma {:induction false} WordsDropSpaces(s: string, i: nat)
    requires i <= |s| && AllIn(s, 0, i, IsSpace)
    ensures Words(s[i..]) == Words(s)
  {
    if i > 0 {
      assert s[1..][i - 1..] == s[i..];
      DropLeadingWordsStep(s);
      WordsDropSpaces(s[1..], i - 1);
    }
  }

  lemma DropLeadingWordsStep(s: string)
    requires s != [] && IsSpace(s[0])
    ensures Words(s) == Words(s[1..])
  {
  }

  /** Trailing white space contributes no word. */
  lemma {:induction false} WordsDropTrailing(s: string, m: nat)
    requires m <= |s| && AllIn(s, m, |s|, IsSpace)
    ensures Words(s[..m]) == Words(s)
  {
    if m == |s| {
      assert s[..m] == s;
    } else if m == 0 {
      WordsDropSpaces(s, |s|);
    } else {
      var x := s[1..];
      assert s == [s[0]] + x;
      assert s[..m] == [s[0]] + x[..m - 1];
      WordsDropTrailing(x, m - 1);
      if IsSpace(s[0]) {
        WordsSpaceCons(s[0], x);
        WordsSpaceCons(s[0], x[..m - 1]);
      } else {
        assert IsSpace(s[m]);
        WordsCons(s[0], x);
        WordsCons(s[0], x[..m - 1]);
      }
    }
  }

  /** `trim()` keeps every word. */
  lemma TrimKeepsWords(s: string)
    ensures Words(Trim(s)) == Words(s)
  {
    var b := TrimBounds(s);
    var head := s[..b.1];
    WordsDropTrailing(s, b.1);
    assert AllIn(head, 0, b.0, IsSpace) by {
      forall k | 0 <= k < b.0 ensures IsSpace(head[k]) {
        assert head[k] == s[k];
      }
    }
    WordsDropSpaces(head, b.0);
    assert head[b.0..] == Trim(s);
  }

  /** `.replace(/\s+/g, ' ')`: every run of white space becomes one space. */
  function CollapseSpaces(s: string): (r: string)
    ensures forall k :: 0 <= k < |r| && IsSpace(r[k]) ==> r[k] == ' '
    ensures forall k :: 0 <= k < |r| - 1 ==> !(r[k] == ' ' && r[k + 1] == ' ')
    ensures NonSpaces(r) == NonSpaces(s)
    ensures r == [] <==> s == []
    ensures s != [] ==> (r[0] == ' ' <==> IsSpace(s[0]))
    ensures Words(r) == Words(s)
    decreases |s|
  {
    if s == [] then []
    else if IsSpace(s[0]) then
      var j := SpanFrom(s, 1, IsSpace);
      var tail := CollapseSpaces(s[j..]);
      CollapseRunStep(s, j, tail);
      [' '] + tail
    else
      var tail := CollapseSpaces(s[1..]);
      CollapseCharStep(s, tail);
      [s[0]] + tail
  }

  /** A run of white space replaced by one space keeps the non-space
      characters and the words. */
  lemma CollapseRunStep(s: string, j: nat, tail: string)
    requires s != [] && IsSpace(s[0]) && 1 <= j <= |s| && AllIn(s, 1, j, IsSpace)
    requires NonSpaces(tail) == NonSpaces(s[j..]) && Words(tail) == Words(s[j..])
    ensures NonSpaces([' '] + tail) == NonSpaces(s) && Words([' '] + tail) == Words(s)
  {
    assert s == s[..j] + s[j..];
    NonSpacesAppend(s[..j], s[j..]);
    NonSpacesOfSpaces(s[..j]);
    assert ([' '] + tail)[1..] == tail;
    WordsSpaceCons(' ', tail);
    WordsDropSpaces(s, j);
  }

  /** A non-space character kept in front keeps the words, provided what
      follows it starts with white space exactly when it did before. */
  lemma CollapseCharStep(s: string, tail: string)
    requires s != [] && !IsSpace(s[0]) && Words(tail) == Words(s[1..])
    requires tail == [] <==> s[1..] == []
    requires tail != [] ==> (IsSpace(tail[0]) <==> IsSpace(s[1]))
    ensures Words([s[0]] + tail) == Words(s)
  {
    assert s == [s[0]] + s[1..];
    WordsCons(s[0], tail);
    WordsCons(s[0], s[1..]);
  }

  /** `.replace(/\.[^/.]+$/, '')`: drops a final extension, that is a last
      dot followed by at least one character and no slash. */
  function StripExtension(s: string): (r: string)
    ensures |r| <= |s| && r == s[..|r|]
    ensures r != s ==> HasExtension(s, |r|)
    ensures r == s ==> forall i :: 0 <= i < |s| ==> !HasExtension(s, i)
  {
    match LastDot(s)
    case None => s
    case Some(i) => if HasExtension(s, i) then s[..i] else s
  }

  /** A dot at `i` starts an extension: something follows it, and that is free
      of dots and slashes. */
  predicate HasExtension(s: string, i: nat) {
    i < |s| && s[i] == '.' && i + 1 < |s| &&
    forall k :: i < k < |s| ==> s[k] != '.' && s[k] != '/'
  }

  /** Position of the last dot. */
  function LastDot(s: string): (r: Option<nat>)
    ensures r.Some? ==> r.value < |s| && s[r.value] == '.' && forall k :: r.value < k < |s| ==> s[k] != '.'
    ensures r.None? ==> forall k :: 0 <= k < |s| ==> s[k] != '.'
  {
    if s == [] then None
    else if s[|s| - 1] == '.' then Some(|s| - 1)
    else LastDot(s[..|s| - 1])
  }

  /** `.replace(/^\d+[\s.-]*\/, '')`: drops a leading track number and the
      white space, dots and hyphens after it. */
  function StripTrackNumber(s: string): (r: string)
    ensures |r| <= |s| && r == s[|s| - |r|..]
    ensures s == [] || !IsDigit(s[0]) ==> r == s
    ensures s != [] && IsDigit(s[0]) ==> |r| < |s|
  {
    if s == [] || !IsDigit(s[0]) then s
    else s[SpanFrom(s, SpanFrom(s, 0, IsDigit), IsNumberTrailer)..]
  }

  /** What a leading track number removes consists of digits, white space, dots
      and hyphens only, and it is removed entirely. */
  lemma StripTrackNumberRemovesNumber(s: string)
    requires s != [] && IsDigit(s[0])
    ensures AllIn(s, 0, |s| - |StripTrackNumber(s)|, IsNumberPart)
    ensures var r := StripTrackNumber(s); r == [] || !IsNumberTrailer(r[0])
  {
    var d := SpanFrom(s, 0, IsDigit);
    var e := SpanFrom(s, d, IsNumberTrailer);
    assert StripTrackNumber(s) == s[e..];
    forall k | 0 <= k < e ensures IsNumberPart(s[k]) {
      if k < d {
        assert IsDigit(s[k]);
      } else {
        assert IsNumberTrailer(s[k]);
      }
    }
  }

  /** A digit or one of `[\s.-]`: the characters a track-number prefix consists of. */
  predicate IsNumberPart(c: char) {
    IsDigit(c) || IsNumberTrailer(c)
  }

  /** The cleaned title, before the fallback for an empty result: the
      extension and then a leading track number are removed, the separators
      become spaces, and the white space is collapsed and trimmed, which
      keeps every other character in order. */
  function CleanTitle(fileName: string): (r: string)
    ensures NonSpaces(r) == NonSpaces(ReplaceSeparators(StripTrackNumber(StripExtension(fileName))))
    ensures Words(r) == Words(ReplaceSeparators(StripTrackNumber(StripExtension(fileName))))
    ensures r == JoinWords(Words(ReplaceSeparators(StripTrackNumber(StripExtension(fileName)))))
  {
    var a := ReplaceSeparators(StripTrackNumber(StripExtension(fileName)));
    var c := CollapseSpaces(a);
    TrimKeepsNonSpaces(c);
    TrimKeepsWords(c);
    CollapseKeepsNoSeparators(a);
    TrimMakesClean(c);
    SingleSpacedIsJoinedWords(Trim(c));
    Trim(c)
  }

  /** Trimming removes white space only. */
  lemma TrimKeepsNonSpaces(s: string)
    ensures NonSpaces(Trim(s)) == NonSpaces(s)
  {
    var b := TrimBounds(s);
    var head := s[..b.1];
    DropTrailingSpaces(s, b.1);
    assert AllIn(head, 0, b.0, IsSpace) by {
      forall k | 0 <= k < b.0 ensures IsSpace(head[k]) {
        assert head[k] == s[k];
      }
    }
    DropLeadingSpaces(head, b.0);
    assert head[b.0..] == Trim(s);
  }

  /** Leading white space contributes no non-space character. */
  lemma {:induction false} DropLeadingSpaces(s: string, i: nat)
    requires i <= |s| && AllIn(s, 0, i, IsSpace)
    ensures NonSpaces(s[i..]) == NonSpaces(s)
  {
    if i > 0 {
      assert s[1..][i - 1..] == s[i..];
      DropLeadingSpaces(s[1..], i - 1);
    }
  }

  /** Trailing white space contributes no non-space character. */
  lemma DropTrailingSpaces(s: string, j: nat)
    requires j <= |s| && AllIn(s, j, |s|, IsSpace)
    ensures NonSpaces(s[..j]) == NonSpaces(s)
  {
    assert s == s[..j] + s[j..];
    NonSpacesAppend(s[..j], s[j..]);
    SpacesOfSlice(s, j, |s|);
    assert s[j..] == s[j..|s|];
    NonSpacesOfSpaces(s[j..]);
  }

  lemma SpacesOfSlice(s: string, i: nat, j: nat)
    requires i <= j <= |s| && AllIn(s, i, j, IsSpace)
    ensures AllIn(s[i..j], 0, j - i, IsSpace)
  {
    forall k | 0 <= k < j - i ensures IsSpace(s[i..j][k]) {
      assert s[i..j][k] == s[i + k];
    }
  }

  /** No separator characters, white space only as single inner spaces. */
  predicate IsCleanText(t: string) {
    (forall k :: 0 <= k < |t| ==> !IsSeparator(t[k])) && SingleSpaced(t)
  }

  /** The title extractor shared by the players: the cleaned name, or `fallback`
      when nothing is left ('Unknown Track' in the ultra-modern players,
      'Titre Inconnu' in the folder player). */
  function TitleOr(fileName: string, fallback: string): (r: string)
    requires fallback != []
    ensures r != []
    ensures r == fallback || IsCleanText(r)
    ensures CleanTitle(fileName) == [] ==> r == fallback
    ensures CleanTitle(fileName) != [] ==> r == CleanTitle(fileName)
  {
    var t := CleanTitle(fileName);
    CleanTitleIsClean(fileName);
    if t == [] then fallback else t
  }

  /** `#extractTitle` of the ultra-modern players: the cleaned name, or
      'Unknown Track' when nothing is left of it. */
  function ExtractTitle(fileName: string): (r: string)
    ensures r != []
    ensures r == "Unknown Track" || IsCleanText(r)
    ensures CleanTitle(fileName) != [] ==> r == CleanTitle(fileName)
    ensures CleanTitle(fileName) == [] ==> r == "Unknown Track"
  {
    TitleOr(fileName, "Unknown Track")
  }

  /** A numbered file name loses its number, extension and separators. */
  lemma ExtractTitleOfNumberedName()
    ensures ExtractTitle("01 - My_Song.mp3") == "My Song"
  {
    ExampleStripExtension();
    ExampleTrackNumber();
    ExampleSeparators();
    ExampleCollapse();
    ExampleTrim();
  }

  lemma ExampleStripExtension()
    ensures StripExtension("01 - My_Song.mp3") == "01 - My_Song"
  {
    ExampleLastDot();
    assert HasExtension("01 - My_Song.mp3", 12);
  }

  lemma ExampleSeparators()
    ensures ReplaceSeparators("My_Song") == "My Song"
  {
    var r := ReplaceSeparators("My_Song");
    assert |r| == 7 && r[2] == ' ';
  }

  lemma ExampleLastDot()
    ensures LastDot("01 - My_Song.mp3") == Some(12)
  {
    assert LastDot("01 - My_Song.") == Some(12);
    assert "01 - My_Song.m"[..13] == "01 - My_Song.";
    assert LastDot("01 - My_Song.m") == Some(12);
    assert "01 - My_Song.mp"[..14] == "01 - My_Song.m";
    assert LastDot("01 - My_Song.mp") == Some(12);
    assert "01 - My_Song.mp3"[..15] == "01 - My_Song.mp";
  }

  lemma ExampleTrackNumber()
    ensures StripTrackNumber("01 - My_Song") == "My_Song"
  {
    assert SpanFrom("01 - My_Song", 0, IsDigit) == 2;
    assert SpanFrom("01 - My_Song", 2, IsNumberTrailer) == 5;
  }

  lemma ExampleCollapse()
    ensures CollapseSpaces("My Song") == "My Song"
  {
    CollapseFixedPoint("My Song");
  }

  lemma ExampleTrim()
    ensures Trim("My Song") == "My Song"
  {
    assert TrimBounds("My Song") == (0, 7);
  }

  lemma {:induction false} NoSeparatorInNonSpaces(s: string, c: char)
    requires !IsSpace(c)
    ensures c in s <==> c in NonSpaces(s)
  {
    if s != [] {
      NoSeparatorInNonSpaces(s[1..], c);
      assert s == [s[0]] + s[1..];
    }
  }

  /** Collapsing white space brings in no separator character. */
  lemma CollapseKeepsNoSeparators(a: string)
    requires forall k :: 0 <= k < |a| ==> !IsSeparator(a[k])
    ensures forall k :: 0 <= k < |CollapseSpaces(a)| ==> !IsSeparator(CollapseSpaces(a)[k])
  {
    var c := CollapseSpaces(a);
    NoSeparatorInNonSpaces(a, '-');
    NoSeparatorInNonSpaces(a, '_');
    NoSeparatorInNonSpaces(c, '-');
    NoSeparatorInNonSpaces(c, '_');
    forall k | 0 <= k < |c| ensures !IsSeparator(c[k]) {
      assert c[k] in c;
    }
  }

  /** Trimming text that has no separators and only single spaces makes it clean. */
  lemma TrimMakesClean(c: string)
    requires forall k :: 0 <= k < |c| ==> !IsSeparator(c[k])
    requires forall k :: 0 <= k < |c| && IsSpace(c[k]) ==> c[k] == ' '
    requires forall k :: 0 <= k < |c| - 1 ==> !(c[k] == ' ' && c[k + 1] == ' ')
    ensures IsCleanText(Trim(c))
  {
    var b := TrimBounds(c);
    var t := c[b.0..b.1];
    assert Trim(c) == t;
    forall k | 0 <= k < |t| ensures !IsSeparator(t[k]) && (IsSpace(t[k]) ==> t[k] == ' ') {
      assert t[k] == c[b.0 + k];
    }
    forall k | 0 <= k < |t| - 1 ensures !(t[k] == ' ' && t[k + 1] == ' ') {
      assert t[k] == c[b.0 + k] && t[k + 1] == c[b.0 + k + 1];
    }
    if t != [] {
      assert t[0] == c[b.0] && t[|t| - 1] == c[b.1 - 1];
    }
  }

  /** Every step of the title cleaner leaves clean text. */
  lemma CleanTitleIsClean(fileName: string)
    ensures IsCleanText(CleanTitle(fileName))
  {
    var a := ReplaceSeparators(StripTrackNumber(StripExtension(fileName)));
    CollapseKeepsNoSeparators(a);
    TrimMakesClean(CollapseSpaces(a));
  }

  /** The words put back together with one space between neighbours. */
  function JoinWords(ws: seq<string>): string {
    if ws == [] then []
    else if |ws| == 1 then ws[0]
    else ws[0] + " " + JoinWords(ws[1..])
  }

  /** White space only as single plain spaces, none at either end. */
  predicate SingleSpaced(t: string) {
    (forall k :: 0 <= k < |t| && IsSpace(t[k]) ==> t[k] == ' ') &&
    (forall k :: 0 <= k < |t| - 1 ==> !(t[k] == ' ' && t[k + 1] == ' ')) &&
    (t == [] || (!IsSpace(t[0]) && !IsSpace(t[|t| - 1])))
  }

  /** Single-spaced text is its words joined by single spaces. */
  lemma {:induction false} SingleSpacedIsJoinedWords(t: string)
    requires SingleSpaced(t)
    ensures t == JoinWords(Words(t))
    decreases |t|
  {
    if t != [] {
      var j := SpanFrom(t, 0, IsWordChar);
      if j == |t| {
        assert t[..j] == t && t[j..] == [];
      } else {
        SingleSpacedBreak(t, j);
        var rest := t[j + 1..];
        SingleSpacedSuffix(t, j + 1);
        SingleSpacedIsJoinedWords(rest);
        WordsAtSpace(t, j);
        JoinCons(t[..j], Words(rest));
        SplitAtSpace(t, j);
      }
    }
  }

  /** In single-spaced text a word that ends early is followed by one
      space and then by more text. */
  lemma SingleSpacedBreak(t: string, j: nat)
    requires SingleSpaced(t) && t != [] && j == SpanFrom(t, 0, IsWordChar) && j < |t|
    ensures !IsSpace(t[0]) && t[j] == ' ' && j + 1 < |t| && !IsSpace(t[j + 1])
  {
    assert IsSpace(t[j]) && j + 1 < |t|;
    assert !(t[j] == ' ' && t[j + 1] == ' ');
  }

  lemma SplitAtSpace(t: string, j: nat)
    requires j + 1 < |t| && t[j] == ' '
    ensures t == t[..j] + " " + t[j + 1..]
  {
  }

  /** What follows a space inside single-spaced text is single-spaced. */
  lemma SingleSpacedSuffix(t: string, i: nat)
    requires SingleSpaced(t) && 0 < i < |t| && t[i - 1] == ' '
    ensures SingleSpaced(t[i..])
  {
    var rest := t[i..];
    assert rest[0] == t[i] && rest[|rest| - 1] == t[|t| - 1];
    forall k | 0 <= k < |rest| - 1 ensures !(rest[k] == ' ' && rest[k + 1] == ' ') {
      assert rest[k] == t[i + k] && rest[k + 1] == t[i + k + 1];
    }
  }

  /** A word ended by a single space before more text: the first word, then
      the words after the space, of which there is at least one. */
  lemma WordsAtSpace(t: string, j: nat)
    requires t != [] && !IsSpace(t[0]) && j == SpanFrom(t, 0, IsWordChar)
    requires j + 1 < |t| && IsSpace(t[j]) && !IsSpace(t[j + 1])
    ensures Words(t[j + 1..]) != []
    ensures Words(t) == [t[..j]] + Words(t[j + 1..])
  {
    assert t[j..][1..] == t[j + 1..];
    DropLeadingWordsStep(t[j..]);
    assert t[j + 1..][0] == t[j + 1];
  }

  lemma JoinCons(w: string, ws: seq<string>)
    requires ws != []
    ensures JoinWords([w] + ws) == w + " " + JoinWords(ws)
  {
    assert ([w] + ws)[1..] == ws;
  }

  /** Clean text is a fixed point of the separator, white-space and trim steps:
      cleaning a cleaned title changes nothing. */
  lemma {:induction false} CleaningIsIdempotent(t: string)
    requires IsCleanText(t)
    ensures Trim(CollapseSpaces(ReplaceSeparators(t))) == t
  {
    assert ReplaceSeparators(t) == t;
    CollapseFixedPoint(t);
    TrimOfTrimmed(t);
  }

  /** Text that neither starts nor ends with white space is its own trim. */
  lemma TrimOfTrimmed(t: string)
    requires t == [] || (!IsSpace(t[0]) && !IsSpace(t[|t| - 1]))
    ensures Trim(t) == t
  {
    var b := TrimBounds(t);
    if t != [] {
      assert b.0 == 0 by {
        assert !AllIn(t, 0, 1, IsSpace);
      }
      assert b.1 == |t| by {
        assert !AllIn(t, |t| - 1, |t|, IsSpace);
      }
    }
  }

  lemma {:induction false} CollapseFixedPoint(t: string)
    requires forall k :: 0 <= k < |t| && IsSpace(t[k]) ==> t[k] == ' '
    requires forall k :: 0 <= k < |t| - 1 ==> !(t[k] == ' ' && t[k + 1] == ' ')
    ensures CollapseSpaces(t) == t
  {
    if t != [] {
      if IsSpace(t[0]) {
        assert SpanFrom(t, 1, IsSpace) == 1 by {
          if |t| > 1 { assert t[1] != ' '; assert !IsSpace(t[1]); }
        }
        CollapseFixedPoint(t[1..]);
      } else {
        CollapseFixedPoint(t[1..]);
      }
    }
  }

  /** `extractTitle` of the ocean player: only the extension is dropped and the
      separators become spaces; no trimming and no fallback. */
  function OceanTitle(fileName: string): (r: string)
    ensures |r| == |StripExtension(fileName)|
    ensures forall k :: 0 <= k < |r| ==> !IsSeparator(r[k])
    ensures forall k :: 0 <= k < |r| && !IsSeparator(fileName[k]) ==> r[k] == fileName[k]
  {
    ReplaceSeparators(StripExtension(fileName))
  }

  /** A character that `.` matches. */
  predicate IsTextChar(c: char) {
    !IsLineTerminator(c)
  }

  /** `\s*[-–]\s*(.+)` matches at position h of `s`: optional white space,
      a dash, and then at least one character `.` accepts (the `\s*` after
      the dash may give back the white space it took). */
  predicate DashThenText(s: string, h: nat)
    requires h <= |s|
  {
    var j := SpanFrom(s, h, IsSpace);
    j < |s| && IsDash(s[j]) && !AllIn(s, j + 1, |s|, IsLineTerminator)
  }

  /** The lazy group `(.+?)`: the first length g >= 1, reached without crossing
      a line terminator, after which a dash and some text follow. */
  function LazySplit(s: string, g: nat): (r: Option<nat>)
    requires 1 <= g
    requires AllIn(s, 0, g - 1, IsTextChar)
    ensures r.Some? ==> g <= r.value <= |s| && AllIn(s, 0, r.value, IsTextChar)
    ensures r.Some? ==> DashThenText(s, r.value)
    ensures r.Some? ==> forall h :: g <= h < r.value ==> !DashThenText(s, h)
    ensures r.None? ==>
      forall h :: g <= h <= |s| && AllIn(s, 0, h, IsTextChar) ==> !DashThenText(s, h)
    decreases |s| - g
  {
    if g > |s| || !IsTextChar(s[g - 1]) then None
    else if DashThenText(s, g) then Some(g)
    else LazySplit(s, g + 1)
  }

  /** `#extractArtist` of the ultra-modern players: what precedes the first
      dash that is followed by text, trimmed, or 'Unknown Artist'. */
  function ExtractArtist(fileName: string): (r: string)
    ensures LazySplit(fileName, 1).Some? ==> r == Trim(fileName[..LazySplit(fileName, 1).value])
    ensures LazySplit(fileName, 1).None? ==> r == "Unknown Artist"
  {
    match LazySplit(fileName, 1)
    case Some(g) => Trim(fileName[..g])
    case None => "Unknown Artist"
  }

  /** For a name written "artist - title", where the artist part has no dash
      and no line break and does not end in white space, the artist is found. */
  lemma ExtractArtistOfPair(a: string, b: string)
    requires a != [] && !IsSpace(a[|a| - 1])
    requires forall k :: 0 <= k < |a| ==> !IsDash(a[k]) && IsTextChar(a[k])
    ensures ExtractArtist(a + " - " + b) == Trim(a)
  {
    var s := a + " - " + b;
    assert s[..|a|] == a;
    LazySplitOfPair(a, b, 1);
  }

  lemma {:induction false} LazySplitOfPair(a: string, b: string, g: nat)
    requires a != [] && !IsSpace(a[|a| - 1])
    requires forall k :: 0 <= k < |a| ==> !IsDash(a[k]) && IsTextChar(a[k])
    requires 1 <= g <= |a|
    ensures AllIn(a + " - " + b, 0, g - 1, IsTextChar)
    ensures LazySplit(a + " - " + b, g) == Some(|a|)
    decreases |a| - g
  {
    var s := a + " - " + b;
    assert forall k :: 0 <= k < |a| ==> s[k] == a[k];
    assert s[|a|] == ' ' && s[|a| + 1] == '-' && s[|a| + 2] == ' ';
    if g == |a| {
      assert SpanFrom(s, g + 1, IsSpace) == g + 1;
      assert !AllIn(s, g + 2, |s|, IsLineTerminator);
    } else {
      var j := SpanFrom(s, g, IsSpace);
      assert !AllIn(s, g, |a|, IsSpace);
      assert j <= |a| - 1;
      assert !DashThenText(s, g);
      LazySplitOfPair(a, b, g + 1);
    }
  }

  /** The first position of `c` in `s`. */
  function FirstIndexOf(s: string, c: char): (r: Option<nat>)
    ensures r.Some? ==> r.value < |s| && s[r.value] == c && forall k :: 0 <= k < r.value ==> s[k] != c
    ensures r.None? ==> forall k :: 0 <= k < |s| ==> s[k] != c
  {
    if s == [] then None
    else if s[0] == c then Some(0)
    else match FirstIndexOf(s[1..], c)
      case None => None
      case Some(i) => Some(i + 1)
  }

  /** Where `^([^-]+)\s*-\s*(.+)` splits a file name: at its first hyphen,
      provided that hyphen is not the first character and some character that
      `.` accepts follows it. */
  function HyphenSplit(s: string): (r: Option<nat>)
    ensures r.Some? ==> 1 <= r.value < |s| && s[r.value] == '-'
    ensures r.Some? ==> (forall k :: 0 <= k < r.value ==> s[k] != '-') && !AllIn(s, r.value + 1, |s|, IsLineTerminator)
    ensures r.None? ==> forall p :: 0 <= p < |s| && s[p] == '-' && (forall k :: 0 <= k < p ==> s[k] != '-') ==>
      p == 0 || AllIn(s, p + 1, |s|, IsLineTerminator)
  {
    match FirstIndexOf(s, '-')
    case Some(p) => if p >= 1 && !AllIn(s, p + 1, |s|, IsLineTerminator) then Some(p) else None
    case None => None
  }

  /** `extractArtist` of the folder player: the sub-folder path with its
      separators turned into spaces when there is one; otherwise the trimmed
      part of the file name before the hyphen `HyphenSplit` finds; otherwise
      'Artiste Inconnu'. */
  function FolderArtist(folderName: string, fileName: string): (r: string)
    ensures folderName != [] ==> r == Trim(ReplaceSeparators(folderName))
    ensures folderName != [] ==> forall k :: 0 <= k < |r| ==> !IsSeparator(r[k])
    ensures folderName == [] && HyphenSplit(fileName).Some? ==> r == Trim(fileName[..HyphenSplit(fileName).value])
    ensures folderName == [] && HyphenSplit(fileName).None? ==> r == "Artiste Inconnu"
  {
    if folderName != [] then
      var r := Trim(ReplaceSeparators(folderName));
      assert forall k :: 0 <= k < |r| ==> r[k] in ReplaceSeparators(folderName);
      r
    else match HyphenSplit(fileName)
      case Some(p) => Trim(fileName[..p])
      case None => "Artiste Inconnu"
  }

  /** Without a sub-folder, a file named "artist-title" (no hyphen in the
      artist part, some text in the title part) yields the trimmed artist. */
  lemma FolderArtistOfPair(a: string, b: string)
    requires a != [] && forall k :: 0 <= k < |a| ==> a[k] != '-'
    requires exists k :: 0 <= k < |b| && IsTextChar(b[k])
    ensures FolderArtist("", a + "-" + b) == Trim(a)
  {
    var s := a + "-" + b;
    assert s[|a|] == '-';
    assert forall k :: 0 <= k < |a| ==> s[k] == a[k];
    assert FirstIndexOf(s, '-') == Some(|a|);
    var k :| 0 <= k < |b| && IsTextChar(b[k]);
    assert s[|a| + 1 + k] == b[k];
    assert HyphenSplit(s) == Some(|a|);
    assert s[..|a|] == a;
  }

  /** `toLowerCase` on ASCII letters. */
  function LowerChar(c: char): char {
    if 'A' <= c <= 'Z' then (c as int + 32) as char else c
  }

  /** `toUpperCase` on ASCII letters. */
  function UpperChar(c: char): char {
    if 'a' <= c <= 'z' then (c as int - 32) as char else c
  }

  function Lower(s: string): (r: string)
    ensures |r| == |s| && forall k :: 0 <= k < |s| ==> r[k] == LowerChar(s[k])
  {
    if s == [] then [] else [LowerChar(s[0])] + Lower(s[1..])
  }

  function Upper(s: string): (r: string)
    ensures |r| == |s| && forall k :: 0 <= k < |s| ==> r[k] == UpperChar(s[k])
  {
    if s == [] then [] else [UpperChar(s[0])] + Upper(s[1..])
  }

  /** `s.split('.').pop()`: what follows the last dot, or all of `s`. */
  function LastSegment(s: string): (r: string)
    ensures |r| <= |s| && r == s[|s| - |r|..]
    ensures forall k :: 0 <= k < |r| ==> r[k] != '.'
    ensures |r| < |s| ==> s[|s| - |r| - 1] == '.'
  {
    match LastDot(s)
    case None => s
    case Some(i) => s[i + 1..]
  }

  /** `getFileFormat` of the folder player. */
  function FileFormat(fileName: string): (r: string)
    ensures r == Upper(LastSegment(fileName))
    ensures |r| == |LastSegment(fileName)|
    ensures forall k :: 0 <= k < |r| ==> !('a' <= r[k] <= 'z') && r[k] != '.'
  {
    var seg := LastSegment(fileName);
    UpperOfLower(seg);
    Upper(Lower(seg))
  }

  /** Upper-casing after lower-casing is upper-casing; it leaves no lower-case
      letter and keeps dots exactly where they were. */
  lemma {:induction false} UpperOfLower(s: string)
    ensures Upper(Lower(s)) == Upper(s)
    ensures forall k :: 0 <= k < |s| ==> !('a' <= Upper(s)[k] <= 'z') && (Upper(s)[k] == '.' <==> s[k] == '.')
  {
    if s != [] {
      CaseFolded(s[0]);
      UpperOfLower(s[1..]);
      assert Lower(s)[1..] == Lower(s[1..]);
      forall k | 0 <= k < |s| ensures !('a' <= Upper(s)[k] <= 'z') && (Upper(s)[k] == '.' <==> s[k] == '.') {
        CaseFolded(s[k]);
      }
    }
  }

  /** Lower-casing then upper-casing leaves no lower-case letter and turns no
      other character into a dot. */
  lemma CaseFolded(c: char)
    ensures !('a' <= UpperChar(LowerChar(c)) <= 'z')
    ensures UpperChar(LowerChar(c)) == '.' <==> c == '.'
    ensures UpperChar(LowerChar(c)) == UpperChar(c)
  {
  }

  /** The format label is the upper-cased extension that the title cleaner
      drops: a name with an extension is its stem, a dot and that segment. */
  lemma FormatIsStrippedExtension(fileName: string)
    requires StripExtension(fileName) != fileName
    ensures fileName == StripExtension(fileName) + "." + LastSegment(fileName)
    ensures FileFormat(fileName) == Upper(LastSegment(fileName))
  {
    var stem := StripExtension(fileName);
    var ext := LastSegment(fileName);
    assert HasExtension(fileName, |stem|);
    assert LastDot(fileName) == Some(|stem|);
    assert fileName == fileName[..|stem|] + [fileName[|stem|]] + fileName[|stem| + 1..];
    forall k | 0 <= k < |ext| ensures UpperChar(LowerChar(ext[k])) == UpperChar(ext[k]) {
    }
  }
}
