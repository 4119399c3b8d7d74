/** The string operations the summarizer uses: str.split(' '), ' '.join, removing
    string.punctuation with str.translate, and str.lower. */
module Text {

  /** Python's string.punctuation: the 32 ASCII punctuation characters. */
  const Punctuation: string := "!\"#$%&'()*+,-./:;<=>?@[\\]^_`{|}~"

  /** Number of occurrences of `c` in `s`. */
  function CountChar(s: string, c: char): nat
  {
    if s == [] then 0 else (if s[0] == c then 1 else 0) + CountChar(s[1..], c)
  }

  /** Sum of the lengths of `parts`. */
  function TotalLength(parts: seq<string>): nat
  {
    if parts == [] then 0 else |parts[0]| + TotalLength(parts[1..])
  }

  // ---------------------------------------------------------------- split / join

  /** `s.split(' ')`: every single space ends a word, so leading, trailing and
      repeated spaces produce empty words, and the empty string gives [""]. */
  function SplitOnSpace(s: string): (words: seq<string>)
    ensures |words| == CountChar(s, ' ') + 1
    ensures forall i :: 0 <= i < |words| ==> ' ' !in words[i]
  {
    if s == [] then [""]
    else
      var rest := SplitOnSpace(s[1..]);
      if s[0] == ' ' then [""] + rest
      else [[s[0]] + rest[0]] + rest[1..]
  }

  /** `' '.join(parts)`. */
  function JoinWithSpace(parts: seq<string>): (s: string)
    ensures |parts| > 0 ==> |s| == TotalLength(parts) + |parts| - 1
    ensures parts == [] ==> s == ""
  {
    if parts == [] then ""
    else if |parts| == 1 then parts[0]
    else parts[0] + " " + JoinWithSpace(parts[1..])
  }

  /** Joining the words of a split gives back the original string. */
  lemma {:induction false} JoinSplit(s: string)
    ensures JoinWithSpace(SplitOnSpace(s)) == s
  {
    if s != [] {
      var rest := SplitOnSpace(s[1..]);
      JoinSplit(s[1..]);
      if s[0] == ' ' {
        assert SplitOnSpace(s) == [""] + rest;
        assert JoinWithSpace([""] + rest) == "" + " " + JoinWithSpace(rest);
      } else {
        var words := SplitOnSpace(s);
        assert words == [[s[0]] + rest[0]] + rest[1..];
        if |rest| == 1 {
          assert words == [[s[0]] + rest[0]];
        } else {
          assert words[1..] == rest[1..];
          assert JoinWithSpace(rest) == rest[0] + " " + JoinWithSpace(rest[1..]);
        }
      }
    }
  }

  lemma {:induction false} SplitWithoutSpace(w: string)
    requires ' ' !in w
    ensures SplitOnSpace(w) == [w]
  {
    if w != [] {
      assert w[0] != ' ' by { assert w[0] in w; }
      SplitWithoutSpace(w[1..]);
      assert [w[0]] + w[1..] == w;
    }
  }

  lemma {:induction false} SplitAfterWord(w: string, t: string)
    requires ' ' !in w
    ensures SplitOnSpace(w + " " + t) == [w] + SplitOnSpace(t)
  {
    if w == [] {
      assert w + " " + t == [' '] + t;
      assert (w + " " + t)[1..] == t;
    } else {
      var s := w + " " + t;
      assert s[0] == w[0] && w[0] != ' ' by { assert w[0] in w; }
      assert s[1..] == w[1..] + " " + t;
      assert ' ' !in w[1..] by { forall c | c in w[1..] ensures c in w { } }
      SplitAfterWord(w[1..], t);
      assert [w[0]] + w[1..] == w;
    }
  }

  /** Splitting a join of space-free words gives back the words. */
  lemma {:induction false} SplitJoin(parts: seq<string>)
    requires parts != []
    requires forall i :: 0 <= i < |parts| ==> ' ' !in parts[i]
    ensures SplitOnSpace(JoinWithSpace(parts)) == parts
  {
    if |parts| == 1 {
      SplitWithoutSpace(parts[0]);
    } else {
      SplitJoin(parts[1..]);
      SplitAfterWord(parts[0], JoinWithSpace(parts[1..]));
    }
  }

  // ---------------------------------------------------------------- word normalisation

  /** True of the upper-case letters `str.lower` maps in this model: ASCII A-Z and
      the Latin-1 capitals U+00C0..U+00DE except the multiplication sign U+00D7. */
  predicate IsUpper(c: char)
  {
    ('A' <= c <= 'Z') || ('\U{00C0}' <= c <= '\U{00DE}' && c != '\U{00D7}')
  }

  /** `c.lower()` on the characters above; every other character is left alone. */
  function LowerChar(c: char): (r: char)
    ensures !IsUpper(r)
    ensures !IsUpper(c) ==> r == c
  {
    if IsUpper(c) then (c as int + 32) as char else c
  }

  /** Lower-casing turns no character into punctuation: the letters it changes
      and the letters they become lie outside the ASCII symbol ranges. */
  lemma LowerKeepsNonPunctuation(w: string)
    requires forall i :: 0 <= i < |w| ==> w[i] !in Punctuation
    ensures forall i :: 0 <= i < |Lower(w)| ==> Lower(w)[i] !in Punctuation
  {
    PunctuationIsAscii();
  }

  /** Every punctuation character lies in one of the four ASCII symbol ranges. */
  lemma PunctuationIsAscii()
    ensures forall c :: c in Punctuation ==>
              ('!' <= c <= '/') || (':' <= c <= '@') || ('[' <= c <= '`') || ('{' <= c <= '~')
  {
    assert forall i :: 0 <= i < |Punctuation| ==>
             var c := Punctuation[i];
             ('!' <= c <= '/') || (':' <= c <= '@') || ('[' <= c <= '`') || ('{' <= c <= '~');
  }

  /** `w.lower()`. */
  function Lower(w: string): (r: string)
    ensures |r| == |w|
    ensures forall i :: 0 <= i < |r| ==> r[i] == LowerChar(w[i])
  {
    if w == [] then [] else [LowerChar(w[0])] + Lower(w[1..])
  }

  /** `w.translate(str.maketrans('', '', string.punctuation))`: drops every
      punctuation character and keeps the rest in order. */
  function StripPunctuation(w: string): (r: string)
    ensures |r| + PunctuationCount(w) == |w|
    ensures forall c :: c in r <==> c in w && c !in Punctuation
  {
    if w == [] then []
    else if w[0] in Punctuation then StripPunctuation(w[1..])
    else [w[0]] + StripPunctuation(w[1..])
  }

  function PunctuationCount(w: string): nat
  {
    if w == [] then 0 else (if w[0] in Punctuation then 1 else 0) + PunctuationCount(w[1..])
  }

  /** One summarizer word: punctuation stripped, then lower-cased. */
  function NormalizeWord(w: string): (r: string)
    ensures |r| <= |w|
    ensures forall i :: 0 <= i < |r| ==> r[i] !in Punctuation && !IsUpper(r[i])
  {
    var stripped := StripPunctuation(w);
    assert forall i :: 0 <= i < |stripped| ==> stripped[i] !in Punctuation by {
      forall i | 0 <= i < |stripped| ensures stripped[i] !in Punctuation {
        assert stripped[i] in stripped;
      }
    }
    LowerKeepsNonPunctuation(stripped);
    Lower(stripped)
  }

  lemma {:induction false} StripClean(w: string)
    requires forall i :: 0 <= i < |w| ==> w[i] !in Punctuation
    ensures StripPunctuation(w) == w
  {
    if w != [] {
      StripClean(w[1..]);
    }
  }

  lemma LowerClean(w: string)
    requires forall i :: 0 <= i < |w| ==> !IsUpper(w[i])
    ensures Lower(w) == w
  {
  }

  /** Normalising an already normalised word changes nothing. */
  lemma NormalizeIdempotent(w: string)
    ensures NormalizeWord(NormalizeWord(w)) == NormalizeWord(w)
  {
    var n := NormalizeWord(w);
    StripClean(n);
    LowerClean(n);
  }
}
