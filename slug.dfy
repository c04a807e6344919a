/** `format_anime_name` (app.py:9-11): turns a title into a URL slug by
    splitting it into words, joining them with single spaces, stripping,
    lower-casing and replacing each space with `-`. Characters are ASCII. */
module Slug {

  predicate IsAscii(s: string)
  {
    forall i :: 0 <= i < |s| ==> s[i] as int < 128
  }

  /** `str.isspace()` on an ASCII character: tab, line feed, vertical tab,
      form feed, carriage return, the four separators 0x1C-0x1F and space. */
  predicate IsSpace(c: char)
  {
    c == ' ' || 9 <= c as int <= 13 || 28 <= c as int <= 31
  }

  predicate IsUpper(c: char)
  {
    'A' <= c <= 'Z'
  }

  predicate NoSpace(s: string)
  {
    forall i :: 0 <= i < |s| ==> !IsSpace(s[i])
  }

  /** A text `format_anime_name` leaves as it is: ASCII, no whitespace, no
      upper-case letter. */
  predicate IsSlug(s: string)
  {
    IsAscii(s) && forall i :: 0 <= i < |s| ==> !IsSpace(s[i]) && !IsUpper(s[i])
  }

  /** `str.lower()` on one ASCII character. */
  function LowerChar(c: char): (d: char)
    ensures !IsUpper(d)
    ensures IsSpace(d) <==> IsSpace(c)
    ensures (c as int < 128) == (d as int < 128)
  {
    if IsUpper(c) then (c as int + 32) as char else c
  }

  /** `str.lower()`. */
  function Lower(s: string): string
  {
    seq(|s|, i requires 0 <= i < |s| => LowerChar(s[i]))
  }

  /** `str.replace(a, b)` for one-character `a` and `b`. */
  function Replace(s: string, a: char, b: char): string
  {
    seq(|s|, i requires 0 <= i < |s| => if s[i] == a then b else s[i])
  }

  /** `s` without its leading whitespace. */
  function TrimStart(s: string): (t: string)
    ensures |t| <= |s| && t == s[|s| - |t|..]
    ensures forall i :: 0 <= i < |s| - |t| ==> IsSpace(s[i])
    ensures t == [] || !IsSpace(t[0])
  {
    if s != [] && IsSpace(s[0]) then TrimStart(s[1..]) else s
  }

  /** `s` without its trailing whitespace. */
  function TrimEnd(s: string): (t: string)
    ensures |t| <= |s| && t == s[..|t|]
    ensures forall i :: |t| <= i < |s| ==> IsSpace(s[i])
    ensures t == [] || !IsSpace(t[|t| - 1])
  {
    if s != [] && IsSpace(s[|s| - 1]) then TrimEnd(s[..|s| - 1]) else s
  }

  /** `str.strip()`. */
  function Strip(s: string): string
  {
    TrimEnd(TrimStart(s))
  }

  /** The word read so far, as a list of at most one word. */
  function Flush(word: string): seq<string>
  {
    if word == [] then [] else [word]
  }

  /** The words of `word + s`, where `word` is the part of a word read just
      before `s`. */
  function SplitFrom(s: string, word: string): (words: seq<string>)
    requires NoSpace(word)
    ensures forall k :: 0 <= k < |words| ==> words[k] != [] && NoSpace(words[k])
    decreases |s|
  {
    if s == [] then Flush(word)
    else if IsSpace(s[0]) then
      var rest := SplitFrom(s[1..], []);
      var words := Flush(word) + rest;
      assert forall k :: |Flush(word)| <= k < |words| ==> words[k] == rest[k - |Flush(word)|];
      words
    else
      assert NoSpace(word + [s[0]]) by {
        assert forall i :: 0 <= i < |word| ==> (word + [s[0]])[i] == word[i];
      }
      SplitFrom(s[1..], word + [s[0]])
  }

  /** `str.split()` with no separator: the maximal runs of non-whitespace
      characters, in order. */
  function Split(s: string): (words: seq<string>)
    ensures forall k :: 0 <= k < |words| ==> words[k] != [] && NoSpace(words[k])
  {
    SplitFrom(s, [])
  }

  /** `sep.join(words)` for a one-character separator. */
  function Join(words: seq<string>, sep: char): string
  {
    if words == [] then []
    else if |words| == 1 then words[0]
    else words[0] + [sep] + Join(words[1..], sep)
  }

  /** The non-whitespace characters of `s`, in order. */
  function RemoveSpace(s: string): (r: string)
    ensures NoSpace(r)
  {
    if s == [] then []
    else if IsSpace(s[0]) then RemoveSpace(s[1..])
    else [s[0]] + RemoveSpace(s[1..])
  }

  /** All the words, one after another. */
  function Concat(words: seq<string>): string
  {
    if words == [] then [] else words[0] + Concat(words[1..])
  }

  /** Each word lower-cased. */
  function LowerAll(words: seq<string>): (r: seq<string>)
    ensures |r| == |words|
  {
    seq(|words|, k requires 0 <= k < |words| => Lower(words[k]))
  }

  /** `format_anime_name(name)` (app.py:9-11). The result is ASCII, has no
      whitespace and no upper-case letter. */
  function FormatAnimeName(name: string): (r: string)
    requires IsAscii(name)
    ensures IsSlug(r)
  {
    var words := Split(name);
    SplitIsAscii(name);
    JoinNoSpaceButSep(words, ' ');
    JoinIsAscii(words, ' ');
    var joined := Strip(Join(words, ' '));
    Replace(Lower(joined), ' ', '-')
  }

  lemma {:induction false} RemoveSpaceAppend(a: string, b: string)
    ensures RemoveSpace(a + b) == RemoveSpace(a) + RemoveSpace(b)
  {
    if a == [] {
      assert a + b == b;
    } else {
      assert (a + b)[0] == a[0];
      assert (a + b)[1..] == a[1..] + b;
      RemoveSpaceAppend(a[1..], b);
      if !IsSpace(a[0]) {
        assert [a[0]] + (RemoveSpace(a[1..]) + RemoveSpace(b)) == ([a[0]] + RemoveSpace(a[1..])) + RemoveSpace(b);
      }
    }
  }

  lemma {:induction false} RemoveSpaceOfSpaces(s: string)
    requires forall i :: 0 <= i < |s| ==> IsSpace(s[i])
    ensures RemoveSpace(s) == []
  {
    if s != [] {
      RemoveSpaceOfSpaces(s[1..]);
    }
  }

  lemma {:induction false} RemoveSpaceOfWord(s: string)
    requires NoSpace(s)
    ensures RemoveSpace(s) == s
  {
    if s != [] {
      RemoveSpaceOfWord(s[1..]);
      assert [s[0]] + s[1..] == s;
    }
  }

  lemma {:induction false} ConcatAppend(a: seq<string>, b: seq<string>)
    ensures Concat(a + b) == Concat(a) + Concat(b)
  {
    if a != [] {
      assert (a + b)[0] == a[0] && (a + b)[1..] == a[1..] + b;
      ConcatAppend(a[1..], b);
    } else {
      assert a + b == b;
    }
  }

  lemma {:induction false} SplitFromKeepsNonSpace(s: string, word: string)
    requires NoSpace(word)
    ensures Concat(SplitFrom(s, word)) == word + RemoveSpace(s)
    decreases |s|
  {
    if s == [] {
      assert word + [] == word;
    } else if IsSpace(s[0]) {
      ConcatAppend(Flush(word), SplitFrom(s[1..], []));
      SplitFromKeepsNonSpace(s[1..], []);
    } else {
      assert NoSpace(word + [s[0]]) by {
        assert forall i :: 0 <= i < |word| ==> (word + [s[0]])[i] == word[i];
      }
      SplitFromKeepsNonSpace(s[1..], word + [s[0]]);
      assert word + [s[0]] + RemoveSpace(s[1..]) == word + ([s[0]] + RemoveSpace(s[1..]));
    }
  }

  /** The words `str.split()` finds are exactly the non-whitespace characters
      of the text, in their order: no character is lost, none is added. */
  lemma SplitKeepsNonSpace(s: string)
    ensures Concat(Split(s)) == RemoveSpace(s)
  {
    SplitFromKeepsNonSpace(s, []);
  }

  lemma {:induction false} SplitFromEmpty(s: string, word: string)
    requires NoSpace(word)
    ensures SplitFrom(s, word) == [] <==> word == [] && forall i :: 0 <= i < |s| ==> IsSpace(s[i])
    decreases |s|
  {
    if s != [] {
      if IsSpace(s[0]) {
        SplitFromEmpty(s[1..], []);
        assert forall i :: 1 <= i < |s| ==> s[i] == s[1..][i - 1];
      } else {
        assert NoSpace(word + [s[0]]) by {
          assert forall i :: 0 <= i < |word| ==> (word + [s[0]])[i] == word[i];
        }
        SplitFromEmpty(s[1..], word + [s[0]]);
      }
    }
  }

  /** A text has no words exactly when it is all whitespace. */
  lemma SplitEmpty(s: string)
    ensures Split(s) == [] <==> forall i :: 0 <= i < |s| ==> IsSpace(s[i])
  {
    SplitFromEmpty(s, []);
  }

  lemma {:induction false} SplitFromWord(s: string, word: string)
    requires NoSpace(word) && NoSpace(s) && word + s != []
    ensures SplitFrom(s, word) == [word + s]
    decreases |s|
  {
    if s == [] {
      assert word + s == word;
    } else {
      assert NoSpace(word + [s[0]]) by {
        assert forall i :: 0 <= i < |word| ==> (word + [s[0]])[i] == word[i];
      }
      assert NoSpace(s[1..]) by {
        assert forall i :: 0 <= i < |s| - 1 ==> s[1..][i] == s[i + 1];
      }
      SplitFromWord(s[1..], word + [s[0]]);
      assert word + [s[0]] + s[1..] == word + s;
    }
  }

  /** A nonempty text without whitespace is one word. */
  lemma SplitOfWord(s: string)
    requires s != [] && NoSpace(s)
    ensures Split(s) == [s]
  {
    SplitFromWord(s, []);
    assert [] + s == s;
  }

  lemma {:induction false} SplitFromAtSpace(a: string, c: char, b: string, word: string)
    requires NoSpace(word) && IsSpace(c)
    ensures SplitFrom(a + [c] + b, word) == SplitFrom(a, word) + Split(b)
    decreases |a|
  {
    var s := a + [c] + b;
    if a == [] {
      assert s == [c] + b && s[0] == c && s[1..] == b;
    } else {
      assert s[0] == a[0] && s[1..] == a[1..] + [c] + b;
      if IsSpace(a[0]) {
        SplitFromAtSpace(a[1..], c, b, []);
        assert Flush(word) + (SplitFrom(a[1..], []) + Split(b)) == (Flush(word) + SplitFrom(a[1..], [])) + Split(b);
      } else {
        assert NoSpace(word + [a[0]]) by {
          assert forall i :: 0 <= i < |word| ==> (word + [a[0]])[i] == word[i];
        }
        SplitFromAtSpace(a[1..], c, b, word + [a[0]]);
      }
    }
  }

  /** Words break at whitespace, and only there: a whitespace character
      splits the text into the words before it and the words after it. With
      `SplitOfWord` this determines `str.split()` on every text. */
  lemma SplitAtSpace(a: string, c: char, b: string)
    requires IsSpace(c)
    ensures Split(a + [c] + b) == Split(a) + Split(b)
  {
    SplitFromAtSpace(a, c, b, []);
  }

  lemma {:induction false} SplitFromIsAscii(s: string, word: string)
    requires NoSpace(word) && IsAscii(word) && IsAscii(s)
    ensures forall k :: 0 <= k < |SplitFrom(s, word)| ==> IsAscii(SplitFrom(s, word)[k])
    decreases |s|
  {
    if s != [] {
      assert IsAscii(s[1..]) by {
        assert forall i :: 0 <= i < |s| - 1 ==> s[1..][i] == s[i + 1];
      }
      if IsSpace(s[0]) {
        SplitFromIsAscii(s[1..], []);
        var rest := SplitFrom(s[1..], []);
        var words := Flush(word) + rest;
        assert forall k :: |Flush(word)| <= k < |words| ==> words[k] == rest[k - |Flush(word)|];
      } else {
        var w := word + [s[0]];
        assert NoSpace(w) && IsAscii(w) by {
          assert forall i :: 0 <= i < |word| ==> w[i] == word[i];
        }
        SplitFromIsAscii(s[1..], w);
      }
    }
  }

  lemma SplitIsAscii(s: string)
    requires IsAscii(s)
    ensures forall k :: 0 <= k < |Split(s)| ==> IsAscii(Split(s)[k])
  {
    SplitFromIsAscii(s, []);
  }

  lemma {:induction false} JoinIsAscii(words: seq<string>, sep: char)
    requires forall k :: 0 <= k < |words| ==> IsAscii(words[k])
    requires sep as int < 128
    ensures IsAscii(Join(words, sep))
  {
    if |words| > 1 {
      JoinIsAscii(words[1..], sep);
    }
  }

  /** Joining words without whitespace: the only whitespace is the separator
      itself, and the text neither starts nor ends with it. */
  lemma {:induction false} JoinNoSpaceButSep(words: seq<string>, sep: char)
    requires forall k :: 0 <= k < |words| ==> words[k] != [] && NoSpace(words[k])
    ensures var j := Join(words, sep);
      && (forall i :: 0 <= i < |j| && IsSpace(j[i]) ==> j[i] == sep)
      && (j == [] <==> words == [])
      && (j != [] ==> !IsSpace(j[0]) && !IsSpace(j[|j| - 1]))
  {
    if |words| > 1 {
      JoinNoSpaceButSep(words[1..], sep);
      var j := Join(words, sep);
      var rest := Join(words[1..], sep);
      assert j == words[0] + [sep] + rest;
      forall i | 0 <= i < |j| && IsSpace(j[i]) ensures j[i] == sep {
        if i > |words[0]| {
          assert j[i] == rest[i - |words[0]| - 1];
        }
      }
    }
  }

  /** Stripping a text that neither starts nor ends with whitespace changes
      nothing. */
  lemma StripUntrimmed(s: string)
    requires s == [] || (!IsSpace(s[0]) && !IsSpace(s[|s| - 1]))
    ensures Strip(s) == s
  {
  }

  lemma LowerAppend(a: string, b: string)
    ensures Lower(a + b) == Lower(a) + Lower(b)
  {
  }

  lemma ReplaceAppend(a: string, b: string, x: char, y: char)
    ensures Replace(a + b, x, y) == Replace(a, x, y) + Replace(b, x, y)
  {
  }

  /** Lower-casing a word without whitespace and replacing its spaces does
      the same as lower-casing it. */
  lemma ReplaceLowerWord(w: string)
    requires NoSpace(w)
    ensures Replace(Lower(w), ' ', '-') == Lower(w)
  {
  }

  /** Joining with spaces, lower-casing and turning spaces into `-` is the
      same as lower-casing each word and joining with `-`. */
  lemma {:induction false} ReplaceLowerJoin(words: seq<string>)
    requires forall k :: 0 <= k < |words| ==> NoSpace(words[k])
    ensures Replace(Lower(Join(words, ' ')), ' ', '-') == Join(LowerAll(words), '-')
  {
    if |words| == 1 {
      ReplaceLowerWord(words[0]);
    } else if |words| > 1 {
      var w := words[0];
      var rest := Join(words[1..], ' ');
      LowerAppend(w + [' '], rest);
      LowerAppend(w, [' ']);
      ReplaceAppend(Lower(w) + Lower([' ']), Lower(rest), ' ', '-');
      ReplaceAppend(Lower(w), Lower([' ']), ' ', '-');
      ReplaceLowerWord(w);
      ReplaceLowerJoin(words[1..]);
      assert LowerAll(words)[1..] == LowerAll(words[1..]);
    }
  }

  /** `format_anime_name` lower-cases the words of the name and joins them
      with `-`: runs of whitespace anywhere, and whitespace at either end,
      make no difference. */
  lemma FormatAnimeNameJoinsWords(name: string)
    requires IsAscii(name)
    ensures FormatAnimeName(name) == Join(LowerAll(Split(name)), '-')
  {
    var words := Split(name);
    var j := Join(words, ' ');
    JoinNoSpaceButSep(words, ' ');
    StripUntrimmed(j);
    ReplaceLowerJoin(words);
    assert FormatAnimeName(name) == Replace(Lower(Strip(j)), ' ', '-');
  }

  /** A slug is a fixed point of `format_anime_name`, and only a slug is. */
  lemma FormatAnimeNameFixedPoint(s: string)
    requires IsAscii(s)
    ensures FormatAnimeName(s) == s <==> IsSlug(s)
  {
    if IsSlug(s) {
      if s == [] {
        assert Split(s) == [];
      } else {
        SplitOfWord(s);
        assert Lower(s) == s;
        assert Replace(s, ' ', '-') == s;
      }
    }
  }

  /** `format_anime_name` is idempotent. */
  lemma FormatAnimeNameIdempotent(name: string)
    requires IsAscii(name)
    ensures FormatAnimeName(FormatAnimeName(name)) == FormatAnimeName(name)
  {
    FormatAnimeNameFixedPoint(FormatAnimeName(name));
  }

  /** The slug is empty exactly when the name is all whitespace. */
  lemma FormatAnimeNameEmpty(name: string)
    requires IsAscii(name)
    ensures FormatAnimeName(name) == [] <==> forall i :: 0 <= i < |name| ==> IsSpace(name[i])
  {
    FormatAnimeNameJoinsWords(name);
    var words := LowerAll(Split(name));
    forall k | 0 <= k < |words| ensures words[k] != [] && NoSpace(words[k]) {
      assert |words[k]| == |Split(name)[k]|;
    }
    JoinNoSpaceButSep(words, '-');
    SplitEmpty(name);
  }
}
