/**
 * The string operations the event rules use: `toLowerCase`, `split(/\s+/)`,
 * `join`, `trim` and the `titleCase` helper built from them
 * (examples/event-normalization/transform.ts). Whitespace is the set that
 * ECMAScript's `\s` and `trim` share (WhiteSpace and LineTerminator); case
 * mapping covers the ASCII letters.
 */
module Text {

  /** `parts.join(sep)`. */
  function Join(parts: seq<string>, sep: string): string
  {
    if parts == [] then ""
    else if |parts| == 1 then parts[0]
    else parts[0] + sep + Join(parts[1..], sep)
  }

  /** ECMAScript WhiteSpace or LineTerminator. */
  predicate IsSpace(c: char)
  {
    var n := c as int;
    (0x09 <= n <= 0x0D) || n == 0x20 || n == 0xA0 || n == 0x1680
    || (0x2000 <= n <= 0x200A) || n == 0x2028 || n == 0x2029
    || n == 0x202F || n == 0x205F || n == 0x3000 || n == 0xFEFF
  }

  predicate NoSpace(w: string)
  {
    forall i :: 0 <= i < |w| ==> !IsSpace(w[i])
  }

  predicate AllSpace(w: string)
  {
    forall i :: 0 <= i < |w| ==> IsSpace(w[i])
  }

  function AsciiLower(c: char): char
  {
    if 'A' <= c <= 'Z' then (c as int + 32) as char else c
  }

  function AsciiUpper(c: char): char
  {
    if 'a' <= c <= 'z' then (c as int - 32) as char else c
  }

  /** `s.toLowerCase()` on ASCII letters. */
  function Lower(s: string): (r: string)
    ensures |r| == |s|
  {
    seq(|s|, i requires 0 <= i < |s| => AsciiLower(s[i]))
  }

  /** Nothing left for `toLowerCase` to change. */
  predicate Lowered(s: string)
  {
    forall i :: 0 <= i < |s| ==> AsciiLower(s[i]) == s[i]
  }

  /** Length of the run of whitespace `s` starts with. */
  function LeadingSpaces(s: string): (n: nat)
    ensures n <= |s| && AllSpace(s[..n]) && (n < |s| ==> !IsSpace(s[n]))
  {
    if s != [] && IsSpace(s[0]) then
      var m := LeadingSpaces(s[1..]);
      assert s[..1 + m] == [s[0]] + s[1..][..m];
      1 + m
    else 0
  }

  lemma AllSpaceSnoc(w: string, c: char)
    requires AllSpace(w) && IsSpace(c)
    ensures AllSpace(w + [c])
  {
    assert forall i :: 0 <= i < |w| ==> (w + [c])[i] == w[i];
  }

  /** Length of the run of whitespace `s` ends with. */
  function TrailingSpaces(s: string): (n: nat)
    ensures n <= |s| && AllSpace(s[|s| - n..]) && (n < |s| ==> !IsSpace(s[|s| - n - 1]))
  {
    if s != [] && IsSpace(s[|s| - 1]) then
      var t := s[..|s| - 1];
      var m := TrailingSpaces(t);
      assert s[|s| - (1 + m)..] == t[|t| - m..] + [s[|s| - 1]];
      AllSpaceSnoc(t[|t| - m..], s[|s| - 1]);
      1 + m
    else 0
  }

  /** Length of the run of non-whitespace `s` starts with. */
  function WordLength(s: string): (n: nat)
    ensures n <= |s| && NoSpace(s[..n]) && (n < |s| ==> IsSpace(s[n]))
  {
    if s != [] && !IsSpace(s[0]) then
      var m := WordLength(s[1..]);
      assert s[..1 + m] == [s[0]] + s[1..][..m];
      1 + m
    else 0
  }

  /** `s` with every maximal run of whitespace replaced by a single space, character by character. */
  function CollapseSpaces(s: string): string
    decreases |s|
  {
    if s == [] then []
    else if IsSpace(s[0]) then " " + CollapseSpaces(s[LeadingSpaces(s)..])
    else [s[0]] + CollapseSpaces(s[1..])
  }

  lemma {:induction false} CollapseWord(w: string, t: string)
    requires NoSpace(w)
    ensures CollapseSpaces(w + t) == w + CollapseSpaces(t)
  {
    if w != [] {
      assert (w + t)[1..] == w[1..] + t;
      CollapseWord(w[1..], t);
    } else {
      assert w + t == t;
    }
  }

  /**
   * `s.split(/\s+/)`: the pieces between maximal runs of whitespace,
   * including the empty piece before a leading run and after a trailing one.
   * None of them holds whitespace; `SplitCollapsed` shows that joined with
   * single spaces they give `s` with its whitespace runs collapsed, so they
   * are exactly the text between the runs.
   */
  function Split(s: string): (r: seq<string>)
    ensures |r| >= 1
    ensures forall i :: 0 <= i < |r| ==> NoSpace(r[i])
    decreases |s|
  {
    var n := WordLength(s);
    if n == |s| then [s]
    else
      var rest := s[n..];
      [s[..n]] + Split(rest[LeadingSpaces(rest)..])
  }

  /** Joining the pieces of a split with single spaces collapses every whitespace run of the text. */
  lemma {:induction false} SplitCollapsed(s: string)
    ensures Join(Split(s), " ") == CollapseSpaces(s)
    decreases |s|
  {
    var n := WordLength(s);
    if n == |s| {
      CollapseWord(s, []);
      assert s + [] == s;
    } else {
      var rest := s[n..];
      var tail := Split(rest[LeadingSpaces(rest)..]);
      SplitCollapsed(rest[LeadingSpaces(rest)..]);
      assert Split(s) == [s[..n]] + tail;
      assert s == s[..n] + rest;
      CollapseAfterWord(s[..n], rest, tail);
    }
  }

  /** A word, then a whitespace run, then the rest: the word, one space, the rest collapsed. */
  lemma CollapseAfterWord(w: string, rest: string, tail: seq<string>)
    requires NoSpace(w) && rest != [] && IsSpace(rest[0]) && |tail| >= 1
    requires Join(tail, " ") == CollapseSpaces(rest[LeadingSpaces(rest)..])
    ensures Join([w] + tail, " ") == CollapseSpaces(w + rest)
  {
    CollapseWord(w, rest);
    CollapseAtSpace(rest);
    JoinCons(w, tail, " ");
  }

  lemma CollapseAtSpace(t: string)
    requires t != [] && IsSpace(t[0])
    ensures CollapseSpaces(t) == " " + CollapseSpaces(t[LeadingSpaces(t)..])
  {
  }

  lemma JoinCons(w: string, tail: seq<string>, sep: string)
    requires |tail| >= 1
    ensures Join([w] + tail, sep) == w + sep + Join(tail, sep)
  {
    assert ([w] + tail)[1..] == tail;
  }

  /** `.filter((w) => w.length > 0)`. */
  function NonEmpty(ws: seq<string>): (r: seq<string>)
    ensures |r| <= |ws| && forall i :: 0 <= i < |r| ==> r[i] != [] && r[i] in ws
  {
    if ws == [] then []
    else if ws[0] == [] then NonEmpty(ws[1..])
    else [ws[0]] + NonEmpty(ws[1..])
  }

  /** The words of `s`: what the split-and-filter step of `titleCase` leaves. */
  function Words(s: string): seq<string>
  {
    NonEmpty(Split(s))
  }

  /** `w.charAt(0).toUpperCase() + w.slice(1)`. */
  function Capitalize(w: string): (r: string)
    ensures |r| == |w|
  {
    if w == [] then [] else [AsciiUpper(w[0])] + w[1..]
  }

  function Capitalized(ws: seq<string>): (r: seq<string>)
    ensures |r| == |ws|
  {
    seq(|ws|, i requires 0 <= i < |ws| => Capitalize(ws[i]))
  }

  function LowerEach(ws: seq<string>): (r: seq<string>)
    ensures |r| == |ws|
  {
    seq(|ws|, i requires 0 <= i < |ws| => Lower(ws[i]))
  }

  /** `titleCase(str)`. */
  function TitleCase(s: string): string
  {
    Join(Capitalized(Words(Lower(s))), " ")
  }

  /**
   * `s.trim()`: the part of `s` between its leading and its trailing
   * whitespace; empty exactly when `s` is all whitespace.
   */
  function Trim(s: string): (r: string)
    ensures r == [] <==> AllSpace(s)
    ensures r != [] ==> !IsSpace(r[0]) && !IsSpace(r[|r| - 1])
    ensures var i := LeadingSpaces(s);
      i + |r| <= |s| && s[i..i + |r|] == r && AllSpace(s[..i]) && AllSpace(s[i + |r|..])
  {
    var i := LeadingSpaces(s);
    var t := s[i..];
    var r := t[..|t| - TrailingSpaces(t)];
    assert s[i + |r|..] == t[|t| - TrailingSpaces(t)..];
    r
  }

  /** Trimming twice removes nothing more. */
  lemma TrimIdempotent(s: string)
    ensures Trim(Trim(s)) == Trim(s)
  {
    var r := Trim(s);
    assert LeadingSpaces(r) == 0;
    assert r[0..|r|] == r;
  }

  // --- Properties of split, join and case -------------------------------------

  /** Single words, each non-empty and without whitespace. */
  predicate Plain(ws: seq<string>)
  {
    forall i :: 0 <= i < |ws| ==> ws[i] != [] && NoSpace(ws[i])
  }

  lemma {:induction false} NonEmptyOfPlain(ws: seq<string>)
    requires Plain(ws)
    ensures NonEmpty(ws) == ws
  {
    if ws != [] {
      NonEmptyOfPlain(ws[1..]);
    }
  }

  lemma {:induction false} JoinStartsWithWord(ws: seq<string>)
    requires Plain(ws) && ws != []
    ensures Join(ws, " ") != [] && !IsSpace(Join(ws, " ")[0])
  {
    if |ws| > 1 {
      assert Join(ws, " ")[0] == ws[0][0];
    }
  }

  /** A word, one space, then text starting with a non-space character. */
  lemma SplitCons(w: string, t: string)
    requires w != [] && NoSpace(w) && t != [] && !IsSpace(t[0])
    ensures Split(w + (" " + t)) == [w] + Split(t)
  {
    var s := w + (" " + t);
    WordLengthOfWord(w, " " + t);
    var rest := s[|w|..];
    assert rest == " " + t;
    assert rest[1..] == t;
    assert LeadingSpaces(rest) == 1;
    assert s[..|w|] == w;
  }

  /** Splitting words joined by single spaces gives the words back. */
  lemma {:induction false} SplitJoin(ws: seq<string>)
    requires Plain(ws) && ws != []
    ensures Split(Join(ws, " ")) == ws
  {
    if |ws| == 1 {
      WordLengthOfWord(ws[0], "");
      assert ws[0] + "" == ws[0];
    } else {
      var tail := Join(ws[1..], " ");
      assert Join(ws, " ") == ws[0] + (" " + tail);
      JoinStartsWithWord(ws[1..]);
      SplitCons(ws[0], tail);
      SplitJoin(ws[1..]);
      assert ws == [ws[0]] + ws[1..];
    }
  }

  lemma WordLengthOfWord(w: string, rest: string)
    requires w != [] && NoSpace(w) && (rest == [] || IsSpace(rest[0]))
    ensures WordLength(w + rest) == |w|
  {
    var s := w + rest;
    var n := WordLength(s);
    assert forall i :: 0 <= i < |w| ==> s[i] == w[i];
    assert |w| < |s| ==> s[|w|] == rest[0];
  }

  /** The words of single-spaced plain words are those words. */
  lemma WordsOfJoin(ws: seq<string>)
    requires Plain(ws)
    ensures Words(Join(ws, " ")) == ws
  {
    if ws == [] {
      assert Split("") == [""];
    } else {
      SplitJoin(ws);
      NonEmptyOfPlain(ws);
    }
  }

  lemma {:induction false} LowerJoin(ws: seq<string>)
    ensures Lower(Join(ws, " ")) == Join(LowerEach(ws), " ")
  {
    if |ws| > 1 {
      LowerJoin(ws[1..]);
      assert LowerEach(ws)[1..] == LowerEach(ws[1..]);
      LowerAppend(ws[0] + " ", Join(ws[1..], " "));
      LowerAppend(ws[0], " ");
    }
  }

  lemma LowerAppend(a: string, b: string)
    ensures Lower(a + b) == Lower(a) + Lower(b)
  {
  }

  lemma PlainLowerEach(ws: seq<string>)
    requires Plain(ws)
    ensures Plain(LowerEach(ws))
  {
    forall i | 0 <= i < |ws|
      ensures NoSpace(LowerEach(ws)[i])
    {
      assert forall j :: 0 <= j < |ws[i]| ==> LowerEach(ws)[i][j] == AsciiLower(ws[i][j]);
    }
  }

  lemma PlainCapitalized(ws: seq<string>)
    requires Plain(ws)
    ensures Plain(Capitalized(ws))
  {
    forall i | 0 <= i < |ws|
      ensures NoSpace(Capitalized(ws)[i])
    {
      var c := Capitalized(ws)[i];
      assert forall j :: 1 <= j < |c| ==> c[j] == ws[i][j];
    }
  }

  /** `titleCase` of single-spaced plain words capitalises each lower-cased word. */
  lemma TitleCaseOfWords(ws: seq<string>)
    requires Plain(ws)
    ensures TitleCase(Join(ws, " ")) == Join(Capitalized(LowerEach(ws)), " ")
  {
    LowerJoin(ws);
    PlainLowerEach(ws);
    WordsOfJoin(LowerEach(ws));
  }

  /** Every piece of the split of a lower-cased string is lower-cased. */
  lemma {:induction false} SplitLowered(s: string)
    requires Lowered(s)
    ensures forall i :: 0 <= i < |Split(s)| ==> Lowered(Split(s)[i])
    decreases |s|
  {
    var n := WordLength(s);
    if n < |s| {
      var rest := s[n..];
      var next := rest[LeadingSpaces(rest)..];
      assert next == s[n + LeadingSpaces(rest)..];
      SplitLowered(next);
      assert Split(s) == [s[..n]] + Split(next);
    }
  }

  lemma LowerOfLowered(s: string)
    requires Lowered(s)
    ensures Lower(s) == s
  {
  }

  lemma LowerLowered(s: string)
    ensures Lowered(Lower(s))
  {
  }

  /** Words of `titleCase`'s result: plain, capitalised, otherwise lower-case. */
  predicate TitleWord(w: string)
  {
    && w != [] && NoSpace(w)
    && !('a' <= w[0] <= 'z')
    && forall i :: 1 <= i < |w| ==> !('A' <= w[i] <= 'Z')
  }

  lemma TitleCaseParts(s: string)
    ensures Plain(Words(Lower(s))) && Plain(Capitalized(Words(Lower(s))))
    ensures forall i :: 0 <= i < |Words(Lower(s))| ==> Lowered(Words(Lower(s))[i])
  {
    var ps := Split(Lower(s));
    LowerLowered(s);
    SplitLowered(Lower(s));
    var ws := Words(Lower(s));
    forall i | 0 <= i < |ws|
      ensures ws[i] != [] && NoSpace(ws[i]) && Lowered(ws[i])
    {
      var j :| 0 <= j < |ps| && ps[j] == ws[i];
    }
    PlainCapitalized(ws);
  }

  /**
   * The result of `titleCase` is a sequence of title words separated by
   * single spaces, with no space at either end; lower-cased, they are the
   * words of the lower-cased input.
   */
  lemma TitleCaseShape(s: string)
    ensures forall i :: 0 <= i < |Words(TitleCase(s))| ==> TitleWord(Words(TitleCase(s))[i])
    ensures Join(Words(TitleCase(s)), " ") == TitleCase(s)
    ensures Lower(TitleCase(s)) == Join(Words(Lower(s)), " ")
  {
    var ws := Words(Lower(s));
    var cs := Capitalized(ws);
    TitleCaseParts(s);
    WordsOfJoin(cs);
    forall i | 0 <= i < |cs|
      ensures TitleWord(cs[i])
    {
      assert Lowered(ws[i]);
      forall j | 1 <= j < |cs[i]|
        ensures !('A' <= cs[i][j] <= 'Z')
      {
        assert cs[i][j] == ws[i][j] && AsciiLower(ws[i][j]) == ws[i][j];
      }
    }
    LowerJoin(cs);
    assert LowerEach(cs) == ws by {
      forall i | 0 <= i < |ws|
        ensures LowerEach(cs)[i] == ws[i]
      {
        LowerCapitalize(ws[i]);
      }
    }
  }

  lemma LowerCapitalize(w: string)
    requires Lowered(w)
    ensures Lower(Capitalize(w)) == w
  {
    if w != [] {
      assert Lower(Capitalize(w))[0] == w[0];
      assert forall j :: 1 <= j < |w| ==> Lower(Capitalize(w))[j] == AsciiLower(w[j]);
    }
  }

  /** `titleCase(titleCase(s)) == titleCase(s)`. */
  lemma TitleCaseIdempotent(s: string)
    ensures TitleCase(TitleCase(s)) == TitleCase(s)
  {
    var ws := Words(Lower(s));
    var cs := Capitalized(ws);
    TitleCaseParts(s);
    TitleCaseOfWords(cs);
    assert Capitalized(LowerEach(cs)) == cs by {
      forall i | 0 <= i < |cs|
        ensures Capitalize(Lower(cs[i])) == cs[i]
      {
        LowerCapitalize(ws[i]);
      }
    }
  }

  lemma JoinThree(a: string, b: string, c: string, sep: string)
    ensures Join([a, b, c], sep) == a + sep + (b + sep + c)
  {
    assert [a, b, c][1..] == [b, c] && [b, c][1..] == [c];
    assert Join([b, c], sep) == b + sep + c;
  }

  lemma TitleWordExample(w: string, lowered: string, titled: string)
    requires |w| == |lowered| == |titled| > 0
    requires forall i :: 0 <= i < |w| ==> AsciiLower(w[i]) == lowered[i]
    requires titled[0] == AsciiUpper(lowered[0]) && titled[1..] == lowered[1..]
    ensures Capitalize(Lower(w)) == titled
  {
    assert Lower(w) == lowered;
  }

  lemma ExampleWordsPlain()
    ensures Plain(["quarterly", "PLANNING", "meeting"])
  {
    var ws := ["quarterly", "PLANNING", "meeting"];
    assert NoSpace(ws[0]) && NoSpace(ws[1]) && NoSpace(ws[2]);
  }

  lemma ExampleWordsTitled()
    ensures Capitalized(LowerEach(["quarterly", "PLANNING", "meeting"])) == ["Quarterly", "Planning", "Meeting"]
  {
    TitleWordExample("quarterly", "quarterly", "Quarterly");
    TitleWordExample("PLANNING", "planning", "Planning");
    TitleWordExample("meeting", "meeting", "Meeting");
  }

  lemma ExampleJoins()
    ensures Join(["quarterly", "PLANNING", "meeting"], " ") == "quarterly PLANNING meeting"
    ensures Join(["Quarterly", "Planning", "Meeting"], " ") == "Quarterly Planning Meeting"
  {
    JoinThree("quarterly", "PLANNING", "meeting", " ");
    JoinThree("Quarterly", "Planning", "Meeting", " ");
  }

  lemma TitleCaseVia(ws: seq<string>, s: string, t: string)
    requires Plain(ws) && Join(ws, " ") == s && Join(Capitalized(LowerEach(ws)), " ") == t
    ensures TitleCase(s) == t
  {
    TitleCaseOfWords(ws);
  }

  /** The example in the helper's documentation. */
  lemma TitleCaseExample(s: string)
    requires s == "quarterly PLANNING meeting"
    ensures TitleCase(s) == "Quarterly Planning Meeting"
  {
    ExampleWordsPlain();
    ExampleWordsTitled();
    ExampleJoins();
    TitleCaseVia(["quarterly", "PLANNING", "meeting"], s, "Quarterly Planning Meeting");
  }
}
