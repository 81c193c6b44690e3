/**
 * The front end of the path-data compiler: the string rewriting that puts a
 * `|` in front of every command letter, the split into segments, and the
 * reading of each segment's letter and numeric tail.
 *
 * The regular expressions of the source are all literal patterns with the
 * global flag, so each is modelled by `ReplaceAll`: a left-to-right,
 * non-overlapping replacement of every occurrence.
 */
module PathLexer {
  import opened JsMath

  /** The command letters, in the order the marking loop visits them. */
  const CommandChars: seq<char> :=
    ['m', 'M', 'l', 'L', 'v', 'V', 'h', 'H', 'z', 'Z',
     'c', 'C', 'q', 'Q', 't', 'T', 's', 'S', 'a', 'A']

  predicate IsCommandChar(c: char) {
    match c
    case 'm' | 'M' | 'l' | 'L' | 'v' | 'V' | 'h' | 'H' | 'z' | 'Z' => true
    case 'c' | 'C' | 'q' | 'Q' | 't' | 'T' | 's' | 'S' | 'a' | 'A' => true
    case _ => false
  }

  /** The command characters are exactly the characters of `CommandChars`. */
  lemma CommandCharMember(c: char)
    ensures c in CommandChars <==> IsCommandChar(c)
  {
  }

  /** The drawing commands of SVG path data, by the shape they append. */
  datatype Kind =
    | MoveTo | LineTo | HorizontalTo | VerticalTo
    | CurveTo | SmoothCurveTo | QuadTo | SmoothQuadTo | ArcTo

  /**
   * What the first character of a segment selects: a drawing command
   * (relative for a lower-case letter), a close-path, or nothing at all.
   */
  datatype Letter = Draw(kind: Kind, relative: bool) | ClosePath | NoCommand

  function LetterOfChar(c: char): (l: Letter)
    ensures l.NoCommand? <==> !IsCommandChar(c)
    ensures l.ClosePath? <==> c == 'z' || c == 'Z'
    ensures l.Draw? ==> (l.relative <==> 'a' <= c <= 'z')
  {
    match c
    case 'm' => Draw(MoveTo, true)
    case 'M' => Draw(MoveTo, false)
    case 'l' => Draw(LineTo, true)
    case 'L' => Draw(LineTo, false)
    case 'h' => Draw(HorizontalTo, true)
    case 'H' => Draw(HorizontalTo, false)
    case 'v' => Draw(VerticalTo, true)
    case 'V' => Draw(VerticalTo, false)
    case 'c' => Draw(CurveTo, true)
    case 'C' => Draw(CurveTo, false)
    case 's' => Draw(SmoothCurveTo, true)
    case 'S' => Draw(SmoothCurveTo, false)
    case 'q' => Draw(QuadTo, true)
    case 'Q' => Draw(QuadTo, false)
    case 't' => Draw(SmoothQuadTo, true)
    case 'T' => Draw(SmoothQuadTo, false)
    case 'a' => Draw(ArcTo, true)
    case 'A' => Draw(ArcTo, false)
    case 'z' => ClosePath
    case 'Z' => ClosePath
    case _ => NoCommand
  }

  /** The letter of the SVG grammar that names a drawing command. */
  function Mnemonic(k: Kind, relative: bool): char {
    match k
    case MoveTo => if relative then 'm' else 'M'
    case LineTo => if relative then 'l' else 'L'
    case HorizontalTo => if relative then 'h' else 'H'
    case VerticalTo => if relative then 'v' else 'V'
    case CurveTo => if relative then 'c' else 'C'
    case SmoothCurveTo => if relative then 's' else 'S'
    case QuadTo => if relative then 'q' else 'Q'
    case SmoothQuadTo => if relative then 't' else 'T'
    case ArcTo => if relative then 'a' else 'A'
  }

  /** Every drawing command has a command letter, and that letter reads back as the command. */
  lemma MnemonicRoundTrip(k: Kind, relative: bool)
    ensures IsCommandChar(Mnemonic(k, relative))
    ensures LetterOfChar(Mnemonic(k, relative)) == Draw(k, relative)
  {
    var t := MnemonicSlot(k, relative);
    assert CommandChars[t] == Mnemonic(k, relative);
  }

  /** Where a command's letter sits in `CommandChars`. */
  function MnemonicSlot(k: Kind, relative: bool): (t: nat)
    ensures t < |CommandChars| && CommandChars[t] == Mnemonic(k, relative)
  {
    var base := match k
      case MoveTo => 0
      case LineTo => 2
      case VerticalTo => 4
      case HorizontalTo => 6
      case CurveTo => 10
      case QuadTo => 12
      case SmoothQuadTo => 14
      case SmoothCurveTo => 16
      case ArcTo => 18;
    if relative then base else base + 1
  }

  /** A letter that selects a drawing command is that command's mnemonic. */
  lemma MnemonicUnique(c: char)
    ensures LetterOfChar(c).Draw? ==> c == Mnemonic(LetterOfChar(c).kind, LetterOfChar(c).relative)
  {
  }

  /**
   * `s.replace(new RegExp(pat, 'g'), rep)` for a pattern without special
   * characters: every occurrence, scanning left to right, is replaced and the
   * scan resumes after it.
   */
  function ReplaceAll(s: string, pat: string, rep: string): string
    requires |pat| > 0
    decreases |s|
  {
    if |s| < |pat| then s
    else if s[..|pat|] == pat then rep + ReplaceAll(s[|pat|..], pat, rep)
    else [s[0]] + ReplaceAll(s[1..], pat, rep)
  }

  /** A character that is in neither the pattern nor the replacement is neither added nor removed. */
  lemma {:induction false} ReplaceAllKeepsOthers(s: string, pat: string, rep: string, x: char)
    requires |pat| > 0 && x !in pat && x !in rep
    ensures multiset(ReplaceAll(s, pat, rep))[x] == multiset(s)[x]
    decreases |s|
  {
    if |s| < |pat| {
    } else if s[..|pat|] == pat {
      ReplaceAllKeepsOthers(s[|pat|..], pat, rep, x);
      assert s == s[..|pat|] + s[|pat|..];
      assert multiset(s[..|pat|])[x] == 0 by { assert x !in s[..|pat|]; }
      assert multiset(rep)[x] == 0;
    } else {
      ReplaceAllKeepsOthers(s[1..], pat, rep, x);
      assert s == [s[0]] + s[1..];
    }
  }

  /** Replacing a one-character pattern by text without it leaves none of it behind. */
  lemma {:induction false} ReplaceAllRemoves(s: string, c: char, rep: string)
    requires c !in rep
    ensures c !in ReplaceAll(s, [c], rep)
    decreases |s|
  {
    if |s| >= 1 {
      ReplaceAllRemoves(s[1..], c, rep);
      if s[..1] != [c] {
        assert s[0] != c by { assert s[..1] == [s[0]]; }
      }
    }
  }

  /** The command letters of a string, in order. */
  function Letters(s: string): (r: string)
    ensures forall i :: 0 <= i < |r| ==> IsCommandChar(r[i])
  {
    if s == [] then []
    else (if IsCommandChar(s[0]) then [s[0]] else []) + Letters(s[1..])
  }

  lemma {:induction false} LettersConcat(a: string, b: string)
    ensures Letters(a + b) == Letters(a) + Letters(b)
  {
    if a != [] {
      assert (a + b)[1..] == a[1..] + b;
      LettersConcat(a[1..], b);
    } else {
      assert a + b == b;
    }
  }

  lemma {:induction false} LettersNone(s: string)
    requires forall i :: 0 <= i < |s| ==> !IsCommandChar(s[i])
    ensures Letters(s) == []
  {
    if s != [] {
      LettersNone(s[1..]);
    }
  }

  /** A replacement whose pattern and replacement hold no command letter keeps the letters. */
  lemma {:induction false} ReplaceAllKeepsLetters(s: string, pat: string, rep: string)
    requires |pat| > 0 && Letters(pat) == [] && Letters(rep) == []
    ensures Letters(ReplaceAll(s, pat, rep)) == Letters(s)
    decreases |s|
  {
    if |s| < |pat| {
    } else if s[..|pat|] == pat {
      ReplaceAllKeepsLetters(s[|pat|..], pat, rep);
      LettersConcat(rep, ReplaceAll(s[|pat|..], pat, rep));
      assert s == s[..|pat|] + s[|pat|..];
      LettersConcat(s[..|pat|], s[|pat|..]);
    } else {
      ReplaceAllKeepsLetters(s[1..], pat, rep);
      LettersConcat([s[0]], ReplaceAll(s[1..], pat, rep));
    }
  }

  /**
   * The separator normalisation: a space before every minus sign, double
   * spaces collapsed, spaces turned into commas and double commas collapsed.
   */
  function Preprocess(data: string): string {
    var s1 := ReplaceAll(data, "-", " -");
    var s2 := ReplaceAll(s1, "  ", " ");
    var s3 := ReplaceAll(s2, " ", ",");
    ReplaceAll(s3, ",,", ",")
  }

  /** After the normalisation every separator is a comma: no space is left. */
  lemma PreprocessNoSpace(data: string)
    ensures ' ' !in Preprocess(data)
  {
    var s2 := ReplaceAll(ReplaceAll(data, "-", " -"), "  ", " ");
    var s3 := ReplaceAll(s2, " ", ",");
    ReplaceAllRemoves(s2, ' ', ",");
    ReplaceAllKeepsOthers(s3, ",,", ",", ' ');
  }

  /** The normalisation neither adds nor removes a `|`. */
  lemma PreprocessKeepsBars(data: string)
    ensures '|' in Preprocess(data) <==> '|' in data
  {
    var s1 := ReplaceAll(data, "-", " -");
    var s2 := ReplaceAll(s1, "  ", " ");
    var s3 := ReplaceAll(s2, " ", ",");
    ReplaceAllKeepsOthers(data, "-", " -", '|');
    ReplaceAllKeepsOthers(s1, "  ", " ", '|');
    ReplaceAllKeepsOthers(s2, " ", ",", '|');
    ReplaceAllKeepsOthers(s3, ",,", ",", '|');
  }

  /** Text made of separators only holds no command letter. */
  lemma SeparatorsHaveNoLetters(s: string)
    requires forall i :: 0 <= i < |s| ==> s[i] in " -,"
    ensures Letters(s) == []
  {
    LettersNone(s);
  }

  /** The normalisation keeps the command letters and their order. */
  lemma PreprocessKeepsLetters(data: string)
    ensures Letters(Preprocess(data)) == Letters(data)
  {
    var s1 := ReplaceAll(data, "-", " -");
    var s2 := ReplaceAll(s1, "  ", " ");
    var s3 := ReplaceAll(s2, " ", ",");
    SeparatorsHaveNoLetters("-"); SeparatorsHaveNoLetters(" -"); SeparatorsHaveNoLetters("  ");
    SeparatorsHaveNoLetters(" "); SeparatorsHaveNoLetters(","); SeparatorsHaveNoLetters(",,");
    ReplaceAllKeepsLetters(data, "-", " -");
    ReplaceAllKeepsLetters(s1, "  ", " ");
    ReplaceAllKeepsLetters(s2, " ", ",");
    ReplaceAllKeepsLetters(s3, ",,", ",");
  }

  /** One pass of the marking loop: a `|` in front of every occurrence of `c`. */
  function Mark(s: string, c: char): string {
    ReplaceAll(s, [c], ['|', c])
  }

  /** The result of marking every character of `chars`, each in front of its occurrences. */
  function MarkSet(s: string, chars: seq<char>): string {
    if s == [] then []
    else (if s[0] in chars then ['|', s[0]] else [s[0]]) + MarkSet(s[1..], chars)
  }

  lemma {:induction false} MarkConcat(a: string, b: string, c: char)
    ensures Mark(a + b, c) == Mark(a, c) + Mark(b, c)
  {
    if a != [] {
      assert (a + b)[1..] == a[1..] + b;
      assert (a + b)[..1] == a[..1];
      MarkConcat(a[1..], b, c);
    } else {
      assert a + b == b;
    }
  }

  lemma {:induction false} MarkSetNone(s: string)
    ensures MarkSet(s, []) == s
  {
    if s != [] {
      MarkSetNone(s[1..]);
    }
  }

  lemma MarkChar(x: char, c: char)
    ensures Mark([x], c) == if x == c then ['|', c] else [x]
  {
    assert [x][..1] == [x] && [x][1..] == [];
    assert ReplaceAll([], [c], ['|', c]) == [];
    if x == c {
      assert Mark([x], c) == ['|', c] + ReplaceAll([], [c], ['|', c]);
    } else {
      assert Mark([x], c) == [x] + ReplaceAll([], [c], ['|', c]);
    }
  }

  /** Marking one more letter extends the set of marked letters. */
  lemma {:induction false} MarkStep(s: string, chars: seq<char>, c: char)
    requires c !in chars && c != '|'
    ensures Mark(MarkSet(s, chars), c) == MarkSet(s, chars + [c])
  {
    if s != [] {
      var x := s[0];
      var piece := if x in chars then ['|', x] else [x];
      MarkConcat(piece, MarkSet(s[1..], chars), c);
      MarkStep(s[1..], chars, c);
      if x in chars {
        assert x != c;
        MarkConcat(['|'], [x], c);
        MarkChar('|', c);
        MarkChar(x, c);
        assert ['|'] + [x] == piece;
      } else {
        MarkChar(x, c);
      }
    }
  }

  /** No two entries of the letter list are equal. */
  lemma CommandCharsDistinct(n: nat)
    requires n < |CommandChars|
    ensures CommandChars[n] !in CommandChars[..n] && CommandChars[n] != '|'
  {
  }

  /**
   * `s.split(sep)`: the pieces between separators, always at least one
   * (an empty string gives one empty piece).
   */
  function Split(s: string, sep: char): (r: seq<string>)
    ensures |r| >= 1
    ensures forall i :: 0 <= i < |r| ==> sep !in r[i]
    decreases |s|
  {
    if s == [] then [[]]
    else
      var rest := Split(s[1..], sep);
      if s[0] == sep then [[]] + rest
      else
        var r := [[s[0]] + rest[0]] + rest[1..];
        assert forall i :: 1 <= i < |r| ==> r[i] == rest[i];
        r
  }

  /** `parts.join(sep)`. */
  function Join(parts: seq<string>, sep: char): string
    requires |parts| >= 1
  {
    if |parts| == 1 then parts[0] else parts[0] + [sep] + Join(parts[1..], sep)
  }

  /** Splitting and joining again gives the original string. */
  lemma {:induction false} JoinSplit(s: string, sep: char)
    ensures Join(Split(s, sep), sep) == s
    decreases |s|
  {
    if s != [] {
      var rest := Split(s[1..], sep);
      JoinSplit(s[1..], sep);
      if s[0] == sep {
        assert ([[]] + rest)[1..] == rest;
      } else {
        var r := [[s[0]] + rest[0]] + rest[1..];
        if |rest| == 1 {
        } else {
          assert r[1..] == rest[1..];
          assert Join(rest, sep) == rest[0] + [sep] + Join(rest[1..], sep);
        }
      }
    }
  }

  /** Joining pieces without the separator and splitting again gives the pieces back. */
  lemma {:induction false} SplitJoin(parts: seq<string>, sep: char)
    requires |parts| >= 1 && forall i :: 0 <= i < |parts| ==> sep !in parts[i]
    ensures Split(Join(parts, sep), sep) == parts
    decreases |parts|, |parts[0]|
  {
    var p0 := parts[0];
    if p0 == [] {
      if |parts| > 1 {
        assert Join(parts, sep) == [sep] + Join(parts[1..], sep);
        assert (Join(parts, sep))[1..] == Join(parts[1..], sep);
        SplitJoin(parts[1..], sep);
        assert [[]] + parts[1..] == parts;
      }
    } else {
      var shorter := [p0[1..]] + parts[1..];
      assert forall i :: 0 <= i < |shorter| ==> sep !in shorter[i] by {
        forall i | 0 <= i < |shorter| ensures sep !in shorter[i] {
          if i == 0 { assert sep !in p0; } else { assert shorter[i] == parts[i]; }
        }
      }
      SplitJoin(shorter, sep);
      JoinHead(parts, sep);
      assert p0[0] != sep by { assert p0[0] in p0; }
      SplitOther(p0[0], Join(shorter, sep), sep);
      assert [[p0[0]] + shorter[0]] + shorter[1..] == parts by {
        assert shorter[1..] == parts[1..];
        assert [p0[0]] + p0[1..] == p0;
      }
    }
  }

  /** Joining pieces whose first one is not empty starts with that piece's first character. */
  lemma JoinHead(parts: seq<string>, sep: char)
    requires |parts| >= 1 && parts[0] != []
    ensures Join(parts, sep) == [parts[0][0]] + Join([parts[0][1..]] + parts[1..], sep)
  {
    var shorter := [parts[0][1..]] + parts[1..];
    assert shorter[1..] == parts[1..];
    assert parts[0] == [parts[0][0]] + parts[0][1..];
  }

  /** The segments of the marked string, the piece before the first letter included. */
  function Pieces(data: string): seq<string> {
    Split(MarkSet(Preprocess(data), CommandChars), '|')
  }

  lemma SplitSeparator(t: string, sep: char)
    ensures Split([sep] + t, sep) == [[]] + Split(t, sep)
  {
    assert ([sep] + t)[1..] == t;
  }

  lemma SplitOther(x: char, t: string, sep: char)
    requires x != sep
    ensures var rt := Split(t, sep); Split([x] + t, sep) == [[x] + rt[0]] + rt[1..]
  {
    assert ([x] + t)[1..] == t;
  }

  /**
   * How the marked string falls apart at `|`: a first piece without any
   * command letter, then the pieces of `LetterPieces`.
   */
  predicate Cut(r: seq<string>, ls: string) {
    |r| >= 1 && Letters(r[0]) == [] && LetterPieces(r[1..], ls)
  }

  /** One piece per letter of `ls`, in order, each starting with its letter and holding no other. */
  predicate LetterPieces(r: seq<string>, ls: string)
    decreases |r|
  {
    && |r| == |ls|
    && (|r| > 0 ==>
          && r[0] != [] && r[0][0] == ls[0] && Letters(r[0][1..]) == []
          && LetterPieces(r[1..], ls[1..]))
  }

  lemma {:induction false} LetterPiecesAt(r: seq<string>, ls: string, i: nat)
    requires LetterPieces(r, ls) && i < |r|
    ensures r[i] != [] && r[i][0] == ls[i] && Letters(r[i][1..]) == []
  {
    if i > 0 {
      LetterPiecesAt(r[1..], ls[1..], i - 1);
    }
  }

  lemma CutOther(x: char, rt: seq<string>, ls: string)
    requires !IsCommandChar(x) && Cut(rt, ls)
    ensures Cut([[x] + rt[0]] + rt[1..], ls)
  {
    var r := [[x] + rt[0]] + rt[1..];
    LettersConcat([x], rt[0]);
    assert r[1..] == rt[1..];
  }

  lemma CutLetter(x: char, rt: seq<string>, ls: string)
    requires IsCommandChar(x) && Cut(rt, ls)
    ensures Cut([[]] + ([[x] + rt[0]] + rt[1..]), [x] + ls)
  {
    var q := [[x] + rt[0]] + rt[1..];
    assert ([[]] + q)[1..] == q;
    assert q[0][1..] == rt[0];
    assert q[1..] == rt[1..];
    assert ([x] + ls)[1..] == ls;
  }

  /**
   * With no `|` in the string, splitting the marked string cuts it at every
   * command letter: one piece for the text before the first letter, then
   * one piece per letter.
   */
  lemma {:induction false} MarkedSplit(s: string)
    requires '|' !in s
    ensures Cut(Split(MarkSet(s, CommandChars), '|'), Letters(s))
  {
    if s == [] {
      assert MarkSet(s, CommandChars) == [];
    } else {
      var x, t := s[0], s[1..];
      assert x != '|' by { assert x in s; }
      assert '|' !in t by { assert forall i :: 0 <= i < |t| ==> t[i] == s[i + 1]; }
      MarkedSplit(t);
      CommandCharMember(x);
      assert s == [x] + t;
      if IsCommandChar(x) {
        assert Letters(s) == [x] + Letters(t);
        MarkedLetter(x, t, Letters(t));
      } else {
        assert Letters(s) == Letters(t);
        MarkedOther(x, t, Letters(t));
      }
    }
  }

  /** A command letter in front of the string starts a piece of its own. */
  lemma MarkedLetter(x: char, t: string, lt: string)
    requires x in CommandChars && x != '|' && Cut(Split(MarkSet(t, CommandChars), '|'), lt)
    ensures Cut(Split(MarkSet([x] + t, CommandChars), '|'), [x] + lt)
  {
    var mt := MarkSet(t, CommandChars);
    assert ([x] + t)[1..] == t;
    assert MarkSet([x] + t, CommandChars) == [ '|' ] + ([x] + mt);
    SplitOther(x, mt, '|');
    SplitSeparator([x] + mt, '|');
    CutLetter(x, Split(mt, '|'), lt);
  }

  /** Any other character in front of the string joins the first piece. */
  lemma MarkedOther(x: char, t: string, lt: string)
    requires x !in CommandChars && !IsCommandChar(x) && x != '|'
    requires Cut(Split(MarkSet(t, CommandChars), '|'), lt)
    ensures Cut(Split(MarkSet([x] + t, CommandChars), '|'), lt)
  {
    var mt := MarkSet(t, CommandChars);
    assert ([x] + t)[1..] == t;
    assert MarkSet([x] + t, CommandChars) == [x] + mt;
    SplitOther(x, mt, '|');
    CutOther(x, Split(mt, '|'), lt);
  }

  /** `str.slice(1)`. */
  function Tail(s: string): (r: string)
    ensures s != [] ==> s == [s[0]] + r
    ensures s == [] ==> r == []
  {
    if s == [] then [] else s[1..]
  }

  /** The letter a segment starts with; `charAt(0)` of an empty segment selects nothing. */
  function LetterOf(seg: string): Letter {
    if seg == [] then NoCommand else LetterOfChar(seg[0])
  }

  /**
   * The number texts of a segment: its tail with `e,-` joined back into an
   * exponent, split at commas, without the empty text before a leading comma.
   */
  function NumberTokens(seg: string): (p: seq<string>)
    ensures forall i :: 0 <= i < |p| ==> ',' !in p[i]
  {
    var p := Split(ReplaceAll(Tail(seg), "e,-", "e-"), ',');
    if |p| > 0 && p[0] == [] then p[1..] else p
  }

  /** No `e` is followed by a comma and a minus sign. */
  predicate NoExponentComma(s: string) {
    forall i :: 0 <= i && i + 2 < |s| ==> !(s[i] == 'e' && s[i + 1] == ',' && s[i + 2] == '-')
  }

  /** The rewrite of `e,-` leaves no `e,-` behind, not even one it forms itself. */
  lemma {:induction false} ExponentsJoined(s: string)
    ensures NoExponentComma(ReplaceAll(s, "e,-", "e-"))
    decreases |s|
  {
    if |s| >= 3 {
      var r := ReplaceAll(s, "e,-", "e-");
      if s[..3] == "e,-" {
        var rest := ReplaceAll(s[3..], "e,-", "e-");
        ExponentsJoined(s[3..]);
        assert r == "e-" + rest;
        forall i | 0 <= i && i + 2 < |r|
          ensures !(r[i] == 'e' && r[i + 1] == ',' && r[i + 2] == '-')
        {
          if i >= 2 { assert r[i] == rest[i - 2] && r[i + 1] == rest[i - 1] && r[i + 2] == rest[i]; }
        }
      } else {
        var t := s[1..];
        var rest := ReplaceAll(t, "e,-", "e-");
        ExponentsJoined(t);
        assert r == [s[0]] + rest;
        forall i | 0 <= i && i + 2 < |r|
          ensures !(r[i] == 'e' && r[i + 1] == ',' && r[i + 2] == '-')
        {
          if i >= 1 {
            assert r[i] == rest[i - 1] && r[i + 1] == rest[i] && r[i + 2] == rest[i + 1];
          } else if s[0] == 'e' && rest[0] == ',' && rest[1] == '-' {
            CommaDashKept(t);
            assert false;
          }
        }
      }
    }
  }

  /** The rewrite starts with `,-` only where its input does. */
  lemma CommaDashKept(t: string)
    requires var r := ReplaceAll(t, "e,-", "e-"); |r| >= 2 && r[0] == ',' && r[1] == '-'
    ensures |t| >= 2 && t[0] == ',' && t[1] == '-'
  {
    if |t| >= 3 {
      var r := ReplaceAll(t, "e,-", "e-");
      assert t[..3] != "e,-" by { assert r[0] == ','; }
      var r1 := ReplaceAll(t[1..], "e,-", "e-");
      assert r == [t[0]] + r1;
      if |t[1..]| >= 3 {
        assert t[1..][..3] != "e,-" by { assert r1[0] == '-'; }
        assert r1 == [t[1]] + ReplaceAll(t[2..], "e,-", "e-") by { assert t[1..][1..] == t[2..]; }
      }
    }
  }

  /** Joining pieces starts with the first piece. */
  lemma JoinStarts(parts: seq<string>, sep: char)
    requires |parts| >= 1
    ensures |Join(parts, sep)| >= |parts[0]| && Join(parts, sep)[..|parts[0]|] == parts[0]
  {
  }

  /** Two neighbouring pieces, the first ending in `e` and the next starting with `-`, join into `e,-`. */
  lemma {:induction false} JoinedBoundary(parts: seq<string>, i: nat)
    requires i + 1 < |parts| && parts[i] != [] && parts[i + 1] != []
    requires parts[i][|parts[i]| - 1] == 'e' && parts[i + 1][0] == '-'
    ensures !NoExponentComma(Join(parts, ','))
    decreases i
  {
    var rest := Join(parts[1..], ',');
    var s := Join(parts, ',');
    assert s == parts[0] + [','] + rest;
    if i == 0 {
      JoinStarts(parts[1..], ',');
      var j := |parts[0]| - 1;
      assert rest[0] == parts[1][0] by { assert rest[..|parts[1]|][0] == rest[0]; }
      assert s[j] == 'e' && s[j + 1] == ',' && s[j + 2] == '-';
    } else {
      assert parts[1..][i - 1] == parts[i] && parts[1..][i] == parts[i + 1];
      JoinedBoundary(parts[1..], i - 1);
      var j :| 0 <= j && j + 2 < |rest| && rest[j] == 'e' && rest[j + 1] == ',' && rest[j + 2] == '-';
      var k := |parts[0]| + 1 + j;
      assert s[k] == rest[j] && s[k + 1] == rest[j + 1] && s[k + 2] == rest[j + 2];
    }
  }

  /**
   * An exponent written `e,-` stays in one token: no token ending in `e` is
   * followed by one starting with `-`.
   */
  lemma ExponentStaysWhole(seg: string)
    ensures var p := NumberTokens(seg);
            forall i :: 0 <= i < |p| - 1 && p[i] != [] && p[i + 1] != [] ==>
              !(p[i][|p[i]| - 1] == 'e' && p[i + 1][0] == '-')
  {
    var t := ReplaceAll(Tail(seg), "e,-", "e-");
    var q := Split(t, ',');
    var p := NumberTokens(seg);
    ExponentsJoined(Tail(seg));
    JoinSplit(t, ',');
    forall i | 0 <= i < |p| - 1 && p[i] != [] && p[i + 1] != []
      ensures !(p[i][|p[i]| - 1] == 'e' && p[i + 1][0] == '-')
    {
      if p[i][|p[i]| - 1] == 'e' && p[i + 1][0] == '-' {
        if |q| > 0 && q[0] == [] {
          assert q[i + 1] == p[i] && q[i + 2] == p[i + 1];
          JoinedBoundary(q, i + 1);
        } else {
          JoinedBoundary(q, i);
        }
      }
    }
  }

  /**
   * The tokens, joined again with commas, are the rewritten tail without its
   * leading comma: that comma yields no empty token, and an empty tail no token.
   */
  lemma NumberTokensJoin(seg: string)
    ensures var t, p := ReplaceAll(Tail(seg), "e,-", "e-"), NumberTokens(seg);
            && (t == [] ==> p == [])
            && (t != [] ==> |p| >= 1 && Join(p, ',') == (if t[0] == ',' then t[1..] else t))
  {
    var t := ReplaceAll(Tail(seg), "e,-", "e-");
    if t != [] {
      assert t == [t[0]] + t[1..];
      if t[0] == ',' {
        SplitSeparator(t[1..], ',');
        JoinSplit(t[1..], ',');
      } else {
        SplitOther(t[0], t[1..], ',');
        JoinSplit(t, ',');
      }
    }
  }

  /** A segment as the interpreter sees it: its letter and its parsed numbers (`None` for NaN). */
  datatype Segment = Segment(letter: Letter, values: seq<Option<real>>)

  /** Applies `parseFloat` to every token. */
  function ParseNumbers(parseFloat: string -> Option<real>, p: seq<string>): (vs: seq<Option<real>>)
    ensures |vs| == |p| && forall i :: 0 <= i < |p| ==> vs[i] == parseFloat(p[i])
  {
    if p == [] then [] else [parseFloat(p[0])] + ParseNumbers(parseFloat, p[1..])
  }

  function ParseSegment(parseFloat: string -> Option<real>, seg: string): Segment {
    Segment(LetterOf(seg), ParseNumbers(parseFloat, NumberTokens(seg)))
  }

  /** Every piece after the first, read as a segment; the text before the first letter is dropped. */
  function Lex(parseFloat: string -> Option<real>, data: string): (segs: seq<Segment>)
    ensures |segs| == |Pieces(data)| - 1
    ensures forall i :: 0 <= i < |segs| ==> segs[i] == ParseSegment(parseFloat, Pieces(data)[i + 1])
  {
    var arr := Pieces(data);
    seq(|arr| - 1, i requires 0 <= i < |arr| - 1 => ParseSegment(parseFloat, arr[i + 1]))
  }

  /**
   * For path data without `|`, there is one segment per command letter of
   * the data, in order, and each segment's letter is the one that letter
   * selects.
   */
  lemma LexLetters(parseFloat: string -> Option<real>, data: string)
    requires '|' !in data
    ensures var segs, ls := Lex(parseFloat, data), Letters(data);
            |segs| == |ls| && forall i :: 0 <= i < |segs| ==> segs[i].letter == LetterOfChar(ls[i])
  {
    PreprocessKeepsBars(data);
    PreprocessKeepsLetters(data);
    MarkedSplit(Preprocess(data));
    var r := Pieces(data);
    var segs := Lex(parseFloat, data);
    forall i | 0 <= i < |segs| ensures segs[i].letter == LetterOfChar(Letters(data)[i]) {
      LetterPiecesAt(r[1..], Letters(data), i);
      assert segs[i] == ParseSegment(parseFloat, r[1..][i]);
    }
  }
}
