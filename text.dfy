/**
 * The string primitives of JavaScript that the core relies on: the whitespace
 * class shared by `String.prototype.trim` and the regular-expression escape
 * `\s`, trimming, `lastIndexOf`, the `replace(/\s+/g, " ")` collapse and the
 * decimal rendering of a non-negative integer in a template literal.
 */
module Text {

  /** The WhiteSpace and LineTerminator code points of ECMAScript, in code-point order. */
  const WhiteChars: string :=
    "\t\n\U{000B}\U{000C}\r \U{00A0}\U{1680}"
    + "\U{2000}\U{2001}\U{2002}\U{2003}\U{2004}\U{2005}\U{2006}\U{2007}\U{2008}\U{2009}\U{200A}"
    + "\U{2028}\U{2029}\U{202F}\U{205F}\U{3000}\U{FEFF}"

  /** `c` occurs in `s`. */
  predicate Contains(s: string, c: char)
    decreases |s|
  {
    s != [] && (s[0] == c || Contains(s[1..], c))
  }

  lemma {:induction false} ContainsAt(s: string, c: char, k: nat)
    requires k < |s| && s[k] == c
    ensures Contains(s, c)
    decreases k
  {
    if k > 0 {
      ContainsAt(s[1..], c, k - 1);
    }
  }

  lemma {:induction false} ContainsWitness(s: string, c: char) returns (k: nat)
    requires Contains(s, c)
    ensures k < |s| && s[k] == c
    decreases |s|
  {
    if s[0] == c {
      k := 0;
    } else {
      var j := ContainsWitness(s[1..], c);
      k := j + 1;
    }
  }

  /** The whitespace of `trim` and of the regular-expression class `\s`. */
  predicate IsWhite(c: char) {
    Contains(WhiteChars, c)
  }

  /** The space character is whitespace. */
  lemma SpaceIsWhite()
    ensures IsWhite(' ')
  {
    ContainsAt(WhiteChars, ' ', 5);
  }

  /** Whitespace code points lie outside the printable ASCII range. */
  lemma WhiteIsNotPrintable(c: char)
    requires IsWhite(c)
    ensures c < '!' || c > '~'
  {
    var k := ContainsWitness(WhiteChars, c);
  }

  /** Empty or made of whitespace only. */
  predicate IsBlank(s: string) {
    forall i :: 0 <= i < |s| ==> IsWhite(s[i])
  }

  /**
   * The end of the maximal run of whitespace of `s` that begins at `i`: how far
   * a greedy `\s+` (or `\s*`) reaches from there.
   */
  function WhiteRunEnd(s: string, i: nat): (j: nat)
    requires i <= |s|
    ensures i <= j <= |s|
    ensures forall k :: i <= k < j ==> IsWhite(s[k])
    ensures j == |s| || !IsWhite(s[j])
    decreases |s| - i
  {
    if i < |s| && IsWhite(s[i]) then WhiteRunEnd(s, i + 1) else i
  }

  /** `trim`: drops the leading and the trailing whitespace. */
  function Trim(s: string): (r: string)
    ensures |r| <= |s|
    ensures r == [] <==> IsBlank(s)
    ensures r != [] ==> !IsWhite(r[0]) && !IsWhite(r[|r| - 1])
    decreases |s|
  {
    if s != [] && IsWhite(s[0]) then
      assert IsBlank(s) <==> IsBlank(s[1..]) by {
        assert forall i :: 1 <= i < |s| ==> s[i] == s[1..][i - 1];
      }
      Trim(s[1..])
    else if s != [] && IsWhite(s[|s| - 1]) then
      assert !IsBlank(s) && !IsBlank(s[..|s| - 1]) by {
        assert s[0] == s[..|s| - 1][0];
      }
      Trim(s[..|s| - 1])
    else s
  }

  /**
   * `trim` keeps a contiguous slice of its input, starting at `offset`, and
   * what it drops on either side is whitespace.
   */
  lemma {:induction false} TrimIsSlice(s: string) returns (offset: nat)
    ensures offset + |Trim(s)| <= |s|
    ensures Trim(s) == s[offset..offset + |Trim(s)|]
    ensures forall i :: 0 <= i < offset ==> IsWhite(s[i])
    ensures forall i :: offset + |Trim(s)| <= i < |s| ==> IsWhite(s[i])
    decreases |s|
  {
    if s != [] && IsWhite(s[0]) {
      var k := TrimIsSlice(s[1..]);
      offset := k + 1;
      SliceOfTail(s, s[1..], k, |Trim(s)|);
    } else if s != [] && IsWhite(s[|s| - 1]) {
      offset := TrimIsSlice(s[..|s| - 1]);
      SliceOfInit(s, s[..|s| - 1], offset, |Trim(s)|);
    } else {
      offset := 0;
    }
  }

  /** A slice of `t == s[1..]`, with whitespace around it, read in `s` whose first character is whitespace. */
  lemma SliceOfTail(s: string, t: string, k: nat, n: nat)
    requires s != [] && t == s[1..] && IsWhite(s[0]) && k + n <= |t|
    requires forall i :: 0 <= i < k ==> IsWhite(t[i])
    requires forall i :: k + n <= i < |t| ==> IsWhite(t[i])
    ensures t[k..k + n] == s[k + 1..k + 1 + n]
    ensures forall i :: 0 <= i < k + 1 ==> IsWhite(s[i])
    ensures forall i :: k + 1 + n <= i < |s| ==> IsWhite(s[i])
  {
    forall i | 0 < i < |s|
      ensures s[i] == t[i - 1]
    {
    }
  }

  /** A slice of `t == s[..|s| - 1]`, with whitespace around it, read in `s` whose last character is whitespace. */
  lemma SliceOfInit(s: string, t: string, k: nat, n: nat)
    requires s != [] && t == s[..|s| - 1] && IsWhite(s[|s| - 1]) && k + n <= |t|
    requires forall i :: 0 <= i < k ==> IsWhite(t[i])
    requires forall i :: k + n <= i < |t| ==> IsWhite(t[i])
    ensures t[k..k + n] == s[k..k + n]
    ensures forall i :: 0 <= i < k ==> IsWhite(s[i])
    ensures forall i :: k + n <= i < |s| ==> IsWhite(s[i])
  {
    forall i | 0 <= i < |t|
      ensures s[i] == t[i]
    {
    }
  }

  /** Trimming twice is trimming once. */
  lemma TrimIdempotent(s: string)
    ensures Trim(Trim(s)) == Trim(s)
  {
  }

  /** `s` holds `pat` at position `i`. */
  predicate OccursAt(s: string, pat: string, i: int) {
    0 <= i && i + |pat| <= |s| && s[i..i + |pat|] == pat
  }

  /** The last occurrence of `pat` in `s` starting below `n`, or -1. */
  function LastOccurrenceBelow(s: string, pat: string, n: int): (r: int)
    ensures r == -1 || (0 <= r < n && OccursAt(s, pat, r))
    ensures forall i :: r < i < n ==> !OccursAt(s, pat, i)
    decreases n
  {
    if n <= 0 then -1
    else if OccursAt(s, pat, n - 1) then n - 1
    else LastOccurrenceBelow(s, pat, n - 1)
  }

  /** `s.lastIndexOf(pat)`: the position of the last occurrence, -1 when there is none. */
  function LastIndexOf(s: string, pat: string): (r: int)
    ensures r == -1 || OccursAt(s, pat, r)
    ensures forall i :: r < i ==> !OccursAt(s, pat, i)
  {
    LastOccurrenceBelow(s, pat, |s| - |pat| + 1)
  }

  /**
   * `s.replace(/\s+/g, " ")`: every maximal run of whitespace becomes a single
   * space; every other character is kept in order.
   */
  function CollapseWhitespace(s: string): (r: string)
    ensures |r| <= |s|
    ensures NonWhite(r) == NonWhite(s)
    ensures forall i :: 0 <= i < |r| && IsWhite(r[i]) ==> r[i] == ' '
    ensures forall i, j :: 0 <= i && j == i + 1 && j < |r| && IsWhite(r[i]) ==> !IsWhite(r[j])
    ensures r != [] && IsWhite(r[0]) ==> s != [] && IsWhite(s[0])
  {
    if s == [] then []
    else if IsWhite(s[0]) then
      var k := WhiteRunEnd(s, 0);
      NonWhiteOfWhite(s[..k], s[k..]);
      SpaceIsWhite();
      assert s == s[..k] + s[k..];
      " " + CollapseWhitespace(s[k..])
    else
      assert s == [s[0]] + s[1..];
      NonWhiteConcat([s[0]], s[1..]);
      [s[0]] + CollapseWhitespace(s[1..])
  }

  /** The characters of `s` that are not whitespace, in order. */
  function NonWhite(s: string): seq<char> {
    if s == [] then []
    else if IsWhite(s[0]) then NonWhite(s[1..])
    else [s[0]] + NonWhite(s[1..])
  }

  lemma {:induction false} NonWhiteConcat(a: string, b: string)
    ensures NonWhite(a + b) == NonWhite(a) + NonWhite(b)
  {
    if a != [] {
      assert (a + b)[1..] == a[1..] + b;
      NonWhiteConcat(a[1..], b);
    } else {
      assert a + b == b;
    }
  }

  lemma {:induction false} NonWhiteOfWhite(w: string, b: string)
    requires IsBlank(w)
    ensures NonWhite(w + b) == NonWhite(b)
  {
    if w != [] {
      assert (w + b)[1..] == w[1..] + b;
      NonWhiteOfWhite(w[1..], b);
    } else {
      assert w + b == b;
    }
  }

  /** A blank string is one with no character outside whitespace. */
  lemma {:induction false} BlankIffNoNonWhite(s: string)
    ensures IsBlank(s) <==> NonWhite(s) == []
    decreases |s|
  {
    if s != [] {
      BlankIffNoNonWhite(s[1..]);
      assert IsBlank(s) <==> IsWhite(s[0]) && IsBlank(s[1..]) by {
        assert forall i :: 1 <= i < |s| ==> s[i] == s[1..][i - 1];
      }
    }
  }

  /** `trim` drops whitespace only. */
  lemma NonWhiteTrim(s: string)
    ensures NonWhite(Trim(s)) == NonWhite(s)
  {
    var o := TrimIsSlice(s);
    var r := Trim(s);
    var e := o + |r|;
    var before, after := s[..o], s[e..];
    assert IsBlank(before) && IsBlank(after);
    SplitThree(s, o, e);
    NonWhiteOfWhite(before, r + after);
    NonWhiteConcat(r, after);
    BlankIffNoNonWhite(after);
  }

  lemma SplitThree(s: string, a: nat, b: nat)
    requires a <= b <= |s|
    ensures s == s[..a] + (s[a..b] + s[b..])
  {
  }

  /** The end of the maximal run of non-whitespace characters of `s` that begins at `i`. */
  function WordEnd(s: string, i: nat): (j: nat)
    requires i <= |s|
    ensures i <= j <= |s|
    ensures forall k :: i <= k < j ==> !IsWhite(s[k])
    ensures j == |s| || IsWhite(s[j])
    decreases |s| - i
  {
    if i < |s| && !IsWhite(s[i]) then WordEnd(s, i + 1) else i
  }

  /** A word: a non-empty run of non-whitespace characters. */
  predicate IsWord(w: string) {
    w != [] && forall k :: 0 <= k < |w| ==> !IsWhite(w[k])
  }

  /** The words of `s`: its maximal runs of non-whitespace characters, in order. */
  function Words(s: string): seq<string>
    decreases |s|
  {
    if s == [] then []
    else if IsWhite(s[0]) then Words(s[1..])
    else
      var j := WordEnd(s, 0);
      [s[..j]] + Words(s[j..])
  }

  /** Every word of `s` is non-empty and free of whitespace. */
  lemma {:induction false} WordsAreWords(s: string)
    ensures forall i :: 0 <= i < |Words(s)| ==> IsWord(Words(s)[i])
    decreases |s|
  {
    if s != [] {
      if IsWhite(s[0]) {
        WordsAreWords(s[1..]);
      } else {
        var j := WordEnd(s, 0);
        WordsAreWords(s[j..]);
        assert IsWord(s[..j]);
      }
    }
  }

  /** The words `ws` with `sep` between each two of them. */
  function Join(ws: seq<string>, sep: string): string {
    if ws == [] then []
    else if |ws| == 1 then ws[0]
    else ws[0] + sep + Join(ws[1..], sep)
  }

  /** The words joined by spaces start and end with a non-whitespace character. */
  lemma {:induction false} JoinEnds(ws: seq<string>)
    requires ws != [] && forall i :: 0 <= i < |ws| ==> IsWord(ws[i])
    ensures var r := Join(ws, " "); r != [] && !IsWhite(r[0]) && !IsWhite(r[|r| - 1])
  {
    if |ws| > 1 {
      JoinEnds(ws[1..]);
      assert IsWord(ws[0]);
    }
  }

  /** Leading whitespace does not change the words. */
  lemma {:induction false} WordsAfterWhite(s: string, k: nat)
    requires k <= |s| && forall i :: 0 <= i < k ==> IsWhite(s[i])
    ensures Words(s) == Words(s[k..])
    decreases k
  {
    if k > 0 {
      assert s[1..][k - 1..] == s[k..];
      WordsAfterWhite(s[1..], k - 1);
    }
  }

  /** Collapsing a string that starts with a word keeps the word and collapses the rest. */
  lemma {:induction false} CollapseAfterWord(s: string, j: nat)
    requires j <= |s| && forall i :: 0 <= i < j ==> !IsWhite(s[i])
    ensures CollapseWhitespace(s) == s[..j] + CollapseWhitespace(s[j..])
    decreases j
  {
    if j > 0 {
      var t := s[1..];
      assert t[j - 1..] == s[j..];
      CollapseAfterWord(t, j - 1);
      CollapseCharStep(s);
      assert [s[0]] + t[..j - 1] == s[..j];
      Assoc([s[0]], t[..j - 1], CollapseWhitespace(s[j..]));
    }
  }

  /** `s.replace(/\s+/g, " ").trim()` is the words of `s` joined by single spaces. */
  lemma TrimCollapseIsJoinedWords(s: string)
    ensures Trim(CollapseWhitespace(s)) == Join(Words(s), " ")
  {
    CollapseIsJoinedWords(s);
    LeadTrailBlank(s);
    WordsAreWords(s);
    TrimJoined(Lead(s), Words(s), Trail(s));
  }

  /** The spaces that stand for leading and trailing whitespace are blank. */
  lemma LeadTrailBlank(s: string)
    ensures IsBlank(Lead(s)) && IsBlank(Trail(s))
  {
    SpaceIsWhite();
  }

  lemma BlankConcat(a: string, b: string)
    requires IsBlank(a) && IsBlank(b)
    ensures IsBlank(a + b)
  {
    var c := a + b;
    assert forall i :: 0 <= i < |c| ==> c[i] == if i < |a| then a[i] else b[i - |a|];
  }

  /** Trimming words joined by spaces between blank ends leaves the joined words. */
  lemma TrimJoined(lead: string, ws: seq<string>, trail: string)
    requires IsBlank(lead) && IsBlank(trail)
    requires forall i :: 0 <= i < |ws| ==> IsWord(ws[i])
    ensures Trim(lead + Join(ws, " ") + trail) == Join(ws, " ")
  {
    if ws == [] {
      TrimJoinedNone(lead, ws, trail);
    } else {
      JoinEnds(ws);
      TrimAround(lead, Join(ws, " "), trail);
    }
  }

  lemma TrimJoinedNone(lead: string, ws: seq<string>, trail: string)
    requires IsBlank(lead) && IsBlank(trail) && ws == []
    ensures Trim(lead + Join(ws, " ") + trail) == Join(ws, " ")
  {
    var joined := Join(ws, " ");
    assert joined == [] && IsBlank(joined);
    BlankConcat(lead, joined);
    BlankConcat(lead + joined, trail);
  }

  /** Collapsing a string that starts with a non-whitespace character keeps that character. */
  lemma CollapseCharStep(s: string)
    requires s != [] && !IsWhite(s[0])
    ensures CollapseWhitespace(s) == [s[0]] + CollapseWhitespace(s[1..])
  {
  }

  /** The single space that stands for leading whitespace. */
  function Lead(s: string): string {
    if s != [] && IsWhite(s[0]) then " " else ""
  }

  /** The single space that stands for trailing whitespace after the last word. */
  function Trail(s: string): string {
    if !IsBlank(s) && IsWhite(s[|s| - 1]) then " " else ""
  }

  /**
   * `s.replace(/\s+/g, " ")` is the words of `s` joined by single spaces, with
   * one more space in front when `s` starts with whitespace and one at the end
   * when whitespace follows its last word.
   */
  lemma {:induction false} CollapseIsJoinedWords(s: string)
    ensures CollapseWhitespace(s) == Lead(s) + Join(Words(s), " ") + Trail(s)
    decreases |s|
  {
    if s == [] {
    } else if IsWhite(s[0]) {
      var k := WhiteRunEnd(s, 0);
      CollapseIsJoinedWords(s[k..]);
      CollapseWhiteStep(s);
      CollapseAfterWhite(s, k, CollapseWhitespace(s), CollapseWhitespace(s[k..]));
    } else {
      var j := WordEnd(s, 0);
      CollapseIsJoinedWords(s[j..]);
      CollapseAfterWord(s, j);
      JoinedWordsAfterWord(s, j, CollapseWhitespace(s), CollapseWhitespace(s[j..]));
    }
  }

  /** Collapsing a string that starts with whitespace gives a space, then the collapsed rest. */
  lemma CollapseWhiteStep(s: string)
    requires s != [] && IsWhite(s[0])
    ensures CollapseWhitespace(s) == " " + CollapseWhitespace(s[WhiteRunEnd(s, 0)..])
  {
  }

  lemma Assoc<T>(a: seq<T>, b: seq<T>, c: seq<T>)
    ensures a + (b + c) == (a + b) + c
  {
  }

  /** A string and the part after its leading whitespace run end alike and are blank alike. */
  lemma TrailAfterWhite(s: string, k: nat)
    requires k <= |s| && forall i :: 0 <= i < k ==> IsWhite(s[i])
    ensures Trail(s) == Trail(s[k..])
  {
    var t := s[k..];
    if t != [] {
      assert IsBlank(s) <==> IsBlank(t) by {
        assert forall i :: k <= i < |s| ==> s[i] == t[i - k];
      }
      assert s[|s| - 1] == t[|t| - 1];
    } else {
      assert IsBlank(s);
    }
  }

  /**
   * The step of `CollapseIsJoinedWords` for a string that starts with the
   * whitespace run `s[..k]`: `collapsed` is a space followed by `rest`, the
   * collapsed text after the run.
   */
  lemma CollapseAfterWhite(s: string, k: nat, collapsed: string, rest: string)
    requires s != [] && IsWhite(s[0]) && k == WhiteRunEnd(s, 0)
    requires collapsed == " " + rest
    requires rest == Lead(s[k..]) + Join(Words(s[k..]), " ") + Trail(s[k..])
    ensures collapsed == Lead(s) + Join(Words(s), " ") + Trail(s)
  {
    var t := s[k..];
    var joined := Join(Words(t), " ");
    assert Join(Words(s), " ") == joined by {
      WordsAfterWhite(s, k);
    }
    assert Trail(s) == Trail(t) by {
      TrailAfterWhite(s, k);
    }
    assert rest == joined + Trail(t) by {
      assert Lead(t) == "" by {
        assert t == [] || t[0] == s[k];
      }
      assert Lead(t) + joined == joined;
    }
    assert Lead(s) == " ";
    Assoc(" ", joined, Trail(t));
  }

  /**
   * The step of `CollapseIsJoinedWords` for a string that starts with the word
   * `s[..j]`: `collapsed` is that word followed by `rest`, the collapsed text
   * after it.
   */
  lemma JoinedWordsAfterWord(s: string, j: nat, collapsed: string, rest: string)
    requires s != [] && !IsWhite(s[0]) && j == WordEnd(s, 0)
    requires collapsed == s[..j] + rest
    requires rest == Lead(s[j..]) + Join(Words(s[j..]), " ") + Trail(s[j..])
    ensures collapsed == Lead(s) + Join(Words(s), " ") + Trail(s)
  {
    var t := s[j..];
    var word := s[..j];
    var joined := Join(Words(t), " ");
    assert Lead(s) == "";
    if t == [] {
      assert rest == [] by {
        assert Lead(t) == "" && Trail(t) == "" && Words(t) == [];
      }
      assert Join(Words(s), " ") == word by {
        assert Words(s) == [word];
      }
      assert Trail(s) == "" by {
        TrailAfterWord(s, j);
      }
      Regroup(word, [], [], []);
    } else if Words(t) == [] {
      assert IsBlank(t) by {
        if !IsBlank(t) {
          WordsOfNonBlank(t);
        }
      }
      assert rest == " " by {
        assert t[0] == s[j];
        assert Lead(t) == " " && Trail(t) == "";
      }
      assert Join(Words(s), " ") == word by {
        assert Words(s) == [word];
      }
      assert Trail(s) == " " by {
        TrailAfterWord(s, j);
      }
      Regroup(word, " ", [], []);
    } else {
      assert !IsBlank(t) by {
        if IsBlank(t) {
          WordsOfBlank(t);
        }
      }
      assert rest == " " + joined + Trail(t) by {
        assert t[0] == s[j];
        assert Lead(t) == " ";
      }
      assert Join(Words(s), " ") == word + " " + joined by {
        var ws := Words(s);
        assert ws == [word] + Words(t);
        assert ws[1..] == Words(t);
      }
      assert Trail(s) == Trail(t) by {
        TrailAfterWord(s, j);
      }
      Regroup(word, " ", joined, Trail(t));
    }
  }
  /** The regrouping `JoinedWordsAfterWord` ends with: a word, then the collapsed rest. */
  lemma Regroup(a: string, b: string, c: string, d: string)
    ensures a + (b + c + d) == "" + (a + b + c) + d
  {
  }


  /** What follows the first word decides whether whitespace trails the last word. */
  lemma TrailAfterWord(s: string, j: nat)
    requires s != [] && !IsWhite(s[0]) && j == WordEnd(s, 0)
    ensures j == |s| ==> Trail(s) == ""
    ensures j < |s| && IsBlank(s[j..]) ==> Trail(s) == " "
    ensures j < |s| && !IsBlank(s[j..]) ==> Trail(s) == Trail(s[j..])
  {
    var t := s[j..];
    assert !IsBlank(s);
    if t != [] {
      assert s[|s| - 1] == t[|t| - 1];
    }
  }

  /** A blank string has no words. */
  lemma {:induction false} WordsOfBlank(s: string)
    requires IsBlank(s)
    ensures Words(s) == []
    decreases |s|
  {
    if s != [] {
      WordsOfBlank(s[1..]);
    }
  }

  /** A string that is not blank has a word. */
  lemma {:induction false} WordsOfNonBlank(s: string)
    requires !IsBlank(s)
    ensures Words(s) != []
    decreases |s|
  {
    if IsWhite(s[0]) {
      assert !IsBlank(s[1..]) by {
        var i :| 0 <= i < |s| && !IsWhite(s[i]);
        assert s[1..][i - 1] == s[i];
      }
      WordsOfNonBlank(s[1..]);
    }
  }

  /** Trimming removes whitespace around text that starts and ends with other characters. */
  lemma {:induction false} TrimAround(a: string, x: string, b: string)
    requires IsBlank(a) && IsBlank(b)
    requires x != [] && !IsWhite(x[0]) && !IsWhite(x[|x| - 1])
    ensures Trim(a + x + b) == x
    decreases |a| + |b|
  {
    var s := a + x + b;
    if a != [] {
      assert Trim(s) == Trim(a[1..] + x + b) by {
        TrimFront(s);
        assert s[1..] == a[1..] + x + b;
      }
      TrimAround(a[1..], x, b);
    } else if b != [] {
      assert Trim(s) == Trim([] + x + b[..|b| - 1]) by {
        assert s == x + b;
        TrimBack(s);
        assert s[..|s| - 1] == [] + x + b[..|b| - 1];
      }
      TrimAround([], x, b[..|b| - 1]);
    } else {
      assert s == x;
    }
  }

  lemma TrimFront(s: string)
    requires s != [] && IsWhite(s[0])
    ensures Trim(s) == Trim(s[1..])
  {
  }

  lemma TrimBack(s: string)
    requires s != [] && !IsWhite(s[0]) && IsWhite(s[|s| - 1])
    ensures Trim(s) == Trim(s[..|s| - 1])
  {
  }

  /**
   * Text on one line in normal form: whitespace appears only as single spaces
   * between other characters.
   */
  predicate SingleLine(s: string) {
    && Spaced(s)
    && (s != [] ==> !IsWhite(s[0]) && !IsWhite(s[|s| - 1]))
  }

  /** Every whitespace character of `s` is a space, and no two of them are adjacent. */
  predicate Spaced(s: string) {
    && (forall i :: 0 <= i < |s| && IsWhite(s[i]) ==> s[i] == ' ')
    && (forall i, j :: 0 <= i < |s| && j == i + 1 && j < |s| && IsWhite(s[i]) ==> !IsWhite(s[j]))
  }

  /** Trimming text whose whitespace is single spaces puts it on one line. */
  lemma TrimSingleLine(c: string)
    requires Spaced(c)
    ensures SingleLine(Trim(c))
  {
    var o := TrimIsSlice(c);
    SliceKeepsSpacing(c, o, o + |Trim(c)|);
  }

  /** A slice of text whose whitespace is single spaces has single-space whitespace too. */
  lemma SliceKeepsSpacing(c: string, lo: nat, hi: nat)
    requires lo <= hi <= |c| && Spaced(c)
    ensures Spaced(c[lo..hi])
  {
    var r := c[lo..hi];
    forall i, j | 0 <= i < |r| && j == i + 1 && j < |r| && IsWhite(r[i])
      ensures !IsWhite(r[j])
    {
      assert r[i] == c[lo + i] && r[j] == c[lo + i + 1];
    }
  }

  /**
   * `s.replace(/\s+/g, " ").trim()`: the same non-whitespace characters in the
   * same order, on one line in normal form; empty exactly when `s` is blank.
   */
  function SingleLineOf(s: string): (r: string)
    ensures r == Join(Words(s), " ")
    ensures SingleLine(r)
    ensures NonWhite(r) == NonWhite(s)
    ensures r == [] <==> IsBlank(s)
  {
    var c := CollapseWhitespace(s);
    var r := Trim(c);
    assert SingleLine(r) by {
      assert Spaced(c);
      TrimSingleLine(c);
    }
    assert NonWhite(r) == NonWhite(s) by {
      NonWhiteTrim(c);
    }
    assert r == [] <==> IsBlank(s) by {
      BlankIffNoNonWhite(c);
      BlankIffNoNonWhite(s);
    }
    assert r == Join(Words(s), " ") by {
      TrimCollapseIsJoinedWords(s);
    }
    r
  }

  /** Collapsing whitespace leaves text whose whitespace is already single spaces unchanged. */
  lemma {:induction false} CollapseFixed(s: string)
    requires forall i :: 0 <= i < |s| && IsWhite(s[i]) ==> s[i] == ' '
    requires forall i, j :: 0 <= i && j == i + 1 && j < |s| && IsWhite(s[i]) ==> !IsWhite(s[j])
    ensures CollapseWhitespace(s) == s
    decreases |s|
  {
    if s != [] {
      var t := s[1..];
      assert forall i :: 0 <= i < |t| ==> t[i] == s[i + 1];
      CollapseFixed(t);
      if IsWhite(s[0]) {
        assert |s| > 1 ==> s[1] == s[1] && !IsWhite(s[1]);
        assert WhiteRunEnd(s, 1) == 1;
      }
    }
  }

  /** Normalising text that is already in single-line form changes nothing. */
  lemma SingleLineFixed(s: string)
    requires SingleLine(s)
    ensures SingleLineOf(s) == s
  {
    CollapseFixed(s);
  }

  predicate IsDigit(c: char) {
    '0' <= c <= '9'
  }

  /** The decimal digits of `n`, as a template literal renders an integer. */
  function DecimalString(n: nat): (r: string)
    ensures r != [] && forall i :: 0 <= i < |r| ==> IsDigit(r[i])
    ensures n > 0 ==> r[0] != '0'
    ensures |r| > 1 ==> r[0] != '0'
  {
    var d := [('0' as int + n % 10) as char];
    if n < 10 then d else DecimalString(n / 10) + d
  }

  /** The value of a string of decimal digits. */
  function DecimalValue(s: string): nat
    requires forall i :: 0 <= i < |s| ==> IsDigit(s[i])
  {
    if s == [] then 0
    else
      var last := s[|s| - 1];
      assert IsDigit(last);
      10 * DecimalValue(s[..|s| - 1]) + (last as int - '0' as int)
  }

  /** Reading back a rendered integer gives the integer. */
  lemma {:induction false} DecimalRoundTrip(n: nat)
    ensures DecimalValue(DecimalString(n)) == n
  {
    if n >= 10 {
      var s := DecimalString(n);
      assert s[..|s| - 1] == DecimalString(n / 10);
      DecimalRoundTrip(n / 10);
    }
  }

  /**
   * `digits` is the decimal numeral of `m`: digits only, no leading zero
   * unless it is the single digit `0`, reading back as `m`.
   */
  predicate Numeral(digits: string, m: nat) {
    && digits != []
    && (forall i :: 0 <= i < |digits| ==> IsDigit(digits[i]))
    && (|digits| > 1 ==> digits[0] != '0')
    && DecimalValue(digits) == m
  }

  /** Digits that read back as 0 are all zeros. */
  lemma {:induction false} ZeroValueAllZeros(s: string)
    requires forall i :: 0 <= i < |s| ==> IsDigit(s[i])
    requires DecimalValue(s) == 0
    ensures forall i :: 0 <= i < |s| ==> s[i] == '0'
  {
    if s != [] {
      var init := s[..|s| - 1];
      assert forall i :: 0 <= i < |init| ==> init[i] == s[i];
      ZeroValueAllZeros(init);
    }
  }

  /** The only numeral of 0 is `0`. */
  lemma NumeralOfZero(digits: string)
    requires Numeral(digits, 0)
    ensures digits == "0"
  {
    ZeroValueAllZeros(digits);
  }

  /** The decimal rendering of an integer, as a template literal prints it. */
  function IntString(n: int): (r: string)
    ensures r != [] && (r[0] == '-' <==> n < 0)
    ensures Numeral(if n < 0 then r[1..] else r, if n < 0 then -n else n)
  {
    var magnitude := if n < 0 then -n else n;
    DecimalRoundTrip(magnitude);
    if n < 0 then "-" + DecimalString(magnitude) else DecimalString(magnitude)
  }
}
