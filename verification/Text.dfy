/** Strings as the services handle them: whitespace, `str.strip`, `str.split` words and
    `" ".join`.  Two measures of content are conserved by the text-carrying loops elsewhere:
    `Words` (what a listener hears) and `Ink` (the non-whitespace characters in order). */
module Text {

  /** The characters for which Python's `str.isspace` (and `\s` in a `str` pattern) holds. */
  predicate IsSpace(c: char) {
    || '\t' <= c <= '\r' || '\U{1c}' <= c <= ' ' || c == '\U{85}' || c == '\U{a0}'
    || c == '\U{1680}' || '\U{2000}' <= c <= '\U{200a}' || c == '\U{2028}' || c == '\U{2029}'
    || c == '\U{202f}' || c == '\U{205f}' || c == '\U{3000}'
  }

  function StripLeft(s: string): string {
    if s != "" && IsSpace(s[0]) then StripLeft(s[1..]) else s
  }

  function StripRight(s: string): string {
    if s != "" && IsSpace(s[|s| - 1]) then StripRight(s[..|s| - 1]) else s
  }

  /** `s.strip()`. */
  function Strip(s: string): string {
    StripRight(StripLeft(s))
  }

  /** `s.split()`: the maximal runs of non-whitespace characters, in order. */
  function Words(s: string): (ws: seq<string>)
    ensures s != "" && !IsSpace(s[0]) ==> ws != []
  {
    if s == "" then []
    else if IsSpace(s[0]) then Words(s[1..])
    else if |s| == 1 || IsSpace(s[1]) then [[s[0]]] + Words(s[1..])
    else
      var ws := Words(s[1..]);
      [[s[0]] + ws[0]] + ws[1..]
  }

  /** The non-whitespace characters of `s`, in order. */
  function Ink(s: string): string {
    if s == "" then ""
    else if IsSpace(s[0]) then Ink(s[1..])
    else [s[0]] + Ink(s[1..])
  }

  /** `" ".join(parts)`. */
  function Join(parts: seq<string>): string {
    if parts == [] then ""
    else if |parts| == 1 then parts[0]
    else parts[0] + " " + Join(parts[1..])
  }

  /** `f"{a} {b}".strip()`, the way two captions are fused. */
  function Glue(a: string, b: string): string {
    Strip(a + " " + b)
  }

  function InkAll(parts: seq<string>): string {
    if parts == [] then "" else Ink(parts[0]) + InkAll(parts[1..])
  }

  function WordsAll(parts: seq<string>): seq<string> {
    if parts == [] then [] else Words(parts[0]) + WordsAll(parts[1..])
  }

  lemma {:induction false} WordsAcrossSpace(a: string, c: char, b: string)
    requires IsSpace(c)
    ensures Words(a + [c] + b) == Words(a) + Words(b)
  {
    var t := a + [c] + b;
    if a == "" {
      assert t[1..] == b;
    } else {
      var t' := a[1..] + [c] + b;
      assert t[0] == a[0] && t[1..] == t';
      assert t[1] == (if |a| == 1 then c else a[1]);
      WordsAcrossSpace(a[1..], c, b);
    }
  }

  lemma {:induction false} StripLeftKeeps(s: string)
    ensures Words(StripLeft(s)) == Words(s) && Ink(StripLeft(s)) == Ink(s)
  {
    if s != "" && IsSpace(s[0]) {
      StripLeftKeeps(s[1..]);
    }
  }

  lemma {:induction false} StripRightKeeps(s: string)
    ensures Words(StripRight(s)) == Words(s) && Ink(StripRight(s)) == Ink(s)
  {
    if s != "" && IsSpace(s[|s| - 1]) {
      var t, c := s[..|s| - 1], s[|s| - 1];
      StripRightKeeps(t);
      assert s == t + [c] + "";
      WordsAcrossSpace(t, c, "");
      assert s == t + [c];
      InkConcat(t, [c]);
    }
  }

  /** Stripping loses neither words nor non-whitespace characters. */
  lemma StripKeeps(s: string)
    ensures Words(Strip(s)) == Words(s) && Ink(Strip(s)) == Ink(s)
  {
    StripLeftKeeps(s);
    StripRightKeeps(StripLeft(s));
  }

  lemma {:induction false} InkConcat(a: string, b: string)
    ensures Ink(a + b) == Ink(a) + Ink(b)
  {
    if a == "" {
      assert a + b == b;
    } else {
      assert (a + b)[1..] == a[1..] + b;
      InkConcat(a[1..], b);
    }
  }

  /** Fusing two captions keeps exactly the words of both, in order. */
  lemma GlueWords(a: string, b: string)
    ensures Words(Glue(a, b)) == Words(a) + Words(b)
  {
    StripKeeps(a + " " + b);
    WordsAcrossSpace(a, ' ', b);
  }

  lemma {:induction false} BlankIffNoWords(s: string)
    ensures Strip(s) == "" <==> Words(s) == []
    ensures Strip(s) == "" <==> Ink(s) == ""
  {
    StripKeeps(s);
    var t := Strip(s);
    if t != "" {
      StripEnds(s);
      assert Words(t) != [];
    }
  }

  /** A stripped string is empty or starts and ends with ink. */
  lemma {:induction false} StripEnds(s: string)
    ensures Strip(s) != "" ==> !IsSpace(Strip(s)[0]) && !IsSpace(Strip(s)[|Strip(s)| - 1])
  {
    StripLeftHead(s);
    StripRightEnds(StripLeft(s));
  }

  lemma {:induction false} StripLeftHead(s: string)
    ensures StripLeft(s) != "" ==> !IsSpace(StripLeft(s)[0])
  {
    if s != "" && IsSpace(s[0]) {
      StripLeftHead(s[1..]);
    }
  }

  lemma {:induction false} StripRightEnds(s: string)
    ensures StripRight(s) <= s
    ensures StripRight(s) != "" ==> !IsSpace(StripRight(s)[|StripRight(s)| - 1])
  {
    if s != "" && IsSpace(s[|s| - 1]) {
      StripRightEnds(s[..|s| - 1]);
    }
  }

  /** A string that starts and ends with ink is its own strip. */
  lemma StripFixed(s: string)
    requires s == "" || (!IsSpace(s[0]) && !IsSpace(s[|s| - 1]))
    ensures Strip(s) == s
  {
  }

  lemma {:induction false} InkOfJoin(parts: seq<string>)
    ensures Ink(Join(parts)) == InkAll(parts)
  {
    if |parts| == 1 {
      assert InkAll(parts) == Ink(parts[0]) + InkAll([]);
    } else if |parts| > 1 {
      InkOfJoin(parts[1..]);
      InkConcat(parts[0] + " ", Join(parts[1..]));
      InkConcat(parts[0], " ");
    }
  }

  lemma {:induction false} WordsOfJoin(parts: seq<string>)
    ensures Words(Join(parts)) == WordsAll(parts)
  {
    if |parts| == 1 {
      assert WordsAll(parts) == Words(parts[0]) + WordsAll([]);
    } else if |parts| > 1 {
      WordsOfJoin(parts[1..]);
      WordsAcrossSpace(parts[0], ' ', Join(parts[1..]));
    }
  }

  /** A word: not empty, and without whitespace. */
  predicate IsWord(w: string) {
    w != "" && forall c | c in w :: !IsSpace(c)
  }

  lemma {:induction false} OneWord(w: string)
    requires IsWord(w)
    ensures Words(w) == [w]
  {
    if |w| > 1 {
      OneWord(w[1..]);
      assert w[1] in w && [w[0]] + w[1..] == w;
    } else {
      assert w[1..] == "" && w == [w[0]];
    }
  }

  lemma {:induction false} WordsAreWords(s: string)
    ensures forall w | w in Words(s) :: IsWord(w)
  {
    if s != "" {
      WordsAreWords(s[1..]);
      if !IsSpace(s[0]) && |s| > 1 && !IsSpace(s[1]) {
        var ws := Words(s[1..]);
        assert ws[0] in ws && IsWord([s[0]] + ws[0]);
        assert forall w | w in ws[1..] :: w in ws;
      }
    }
  }

  lemma {:induction false} WordsOfWords(ws: seq<string>)
    requires forall w | w in ws :: IsWord(w)
    ensures WordsAll(ws) == ws
  {
    if ws != [] {
      assert ws[0] in ws;
      OneWord(ws[0]);
      WordsOfWords(ws[1..]);
    }
  }

  /** Splitting undoes joining, and leaves nothing but words. */
  lemma SplitJoin(ws: seq<string>, s: string)
    requires forall w | w in ws :: IsWord(w)
    ensures Words(Join(ws)) == ws && Words(Join(Words(s))) == Words(s)
    ensures forall w | w in Words(s) :: IsWord(w)
  {
    WordsOfJoin(ws);
    WordsOfWords(ws);
    WordsAreWords(s);
    WordsOfJoin(Words(s));
    WordsOfWords(Words(s));
  }

  lemma WordsAllCons(p: string, parts: seq<string>)
    ensures WordsAll([p] + parts) == Words(p) + WordsAll(parts)
  {
    assert ([p] + parts)[1..] == parts;
  }

  /** A text breaks into the words before and after a run of whitespace. */
  lemma WordsAtBreak(head: string, tail: string)
    requires tail != "" && IsSpace(tail[0])
    ensures Words(head + tail) == Words(head) + Words(StripLeft(tail))
  {
    assert head + tail == head + [tail[0]] + tail[1..];
    WordsAcrossSpace(head, tail[0], tail[1..]);
    StripLeftKeeps(tail);
  }

  lemma {:induction false} WordsAllConcat(a: seq<string>, b: seq<string>)
    ensures WordsAll(a + b) == WordsAll(a) + WordsAll(b)
  {
    if a == [] {
      assert a + b == b;
    } else {
      assert (a + b)[1..] == a[1..] + b;
      WordsAllConcat(a[1..], b);
    }
  }

  lemma {:induction false} InkAllConcat(a: seq<string>, b: seq<string>)
    ensures InkAll(a + b) == InkAll(a) + InkAll(b)
  {
    if a == [] {
      assert a + b == b;
    } else {
      assert (a + b)[1..] == a[1..] + b;
      InkAllConcat(a[1..], b);
    }
  }

  /** Joining one more part appends it after a space. */
  lemma {:induction false} JoinSnoc(parts: seq<string>, p: string)
    requires parts != []
    ensures Join(parts + [p]) == Join(parts) + " " + p
  {
    if |parts| == 1 {
      assert (parts + [p])[1..] == [p];
    } else {
      assert (parts + [p])[1..] == parts[1..] + [p];
      JoinSnoc(parts[1..], p);
    }
  }

  lemma {:induction false} StripLeftShorter(s: string)
    ensures |StripLeft(s)| <= |s|
  {
    if s != "" && IsSpace(s[0]) {
      StripLeftShorter(s[1..]);
    }
  }

  /** The stripped, non-empty members. */
  function Stripped(parts: seq<string>): seq<string> {
    if parts == [] then []
    else if Strip(parts[0]) == "" then Stripped(parts[1..])
    else [Strip(parts[0])] + Stripped(parts[1..])
  }

  /** Stripping: same content, ends in ink, and empty exactly when there is no content. */
  lemma StripFacts(s: string)
    ensures Words(Strip(s)) == Words(s) && Ink(Strip(s)) == Ink(s)
    ensures Strip(s) == "" <==> Words(s) == []
    ensures Strip(s) == "" <==> Ink(s) == ""
    ensures Strip(s) != "" ==> !IsSpace(Strip(s)[0]) && !IsSpace(Strip(s)[|Strip(s)| - 1])
    ensures Strip(Strip(s)) == Strip(s)
  {
    StripKeeps(s);
    StripEnds(s);
    BlankIffNoWords(s);
    StripFixed(Strip(s));
  }

  /** A piece as the splitters keep it: stripped and not blank. */
  predicate Neat(p: string) {
    p != "" && Strip(p) == p
  }

  lemma {:induction false} StrippedNonEmpty(parts: seq<string>)
    ensures forall p | p in Stripped(parts) :: Neat(p)
    ensures WordsAll(Stripped(parts)) == WordsAll(parts)
    ensures InkAll(Stripped(parts)) == InkAll(parts)
  {
    if parts != [] {
      StrippedNonEmpty(parts[1..]);
      StripFacts(parts[0]);
      WordsAllCons(Strip(parts[0]), Stripped(parts[1..]));
      InkAllCons(Strip(parts[0]), Stripped(parts[1..]));
    }
  }

  lemma InkAllCons(p: string, parts: seq<string>)
    ensures InkAll([p] + parts) == Ink(p) + InkAll(parts)
  {
    assert ([p] + parts)[1..] == parts;
  }
}
