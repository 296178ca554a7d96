/**
 * The string operations the dispatcher applies to a submitted command:
 * `toUpperCase` (over ASCII) for the local echo, and `split(' ')` whose first
 * piece becomes the active command.
 */
module Text {

  /** The character separating a command from its arguments: one space, nothing else. */
  const Space: char := ' '

  predicate IsLowerAscii(c: char) {
    'a' <= c <= 'z'
  }

  /** ASCII upper-casing of one character; every other character is left alone. */
  function UpperChar(c: char): char {
    if IsLowerAscii(c) then (c as int - 32) as char else c
  }

  /** `toUpperCase`, restricted to ASCII letters. */
  function Upper(s: string): (r: string)
    ensures |r| == |s|
    ensures forall i :: 0 <= i < |s| ==> r[i] == UpperChar(s[i])
  {
    if s == [] then [] else [UpperChar(s[0])] + Upper(s[1..])
  }

  /** The upper-cased text holds no lower-case ASCII letter, and keeps every other character. */
  lemma UpperLeavesNoLowercase(s: string)
    ensures forall i :: 0 <= i < |s| ==> !IsLowerAscii(Upper(s)[i])
    ensures forall i :: 0 <= i < |s| && !IsLowerAscii(s[i]) ==> Upper(s)[i] == s[i]
  {
  }

  /** Upper-casing twice is upper-casing once. */
  lemma UpperIsIdempotent(s: string)
    ensures Upper(Upper(s)) == Upper(s)
  {
    UpperLeavesNoLowercase(s);
  }

  /** `s.split(sep)`: the pieces between separators, always at least one (`"".split(' ')` is `[""]`). */
  function Split(s: string, sep: char): (parts: seq<string>)
    ensures |parts| >= 1
    ensures forall j :: 0 <= j < |parts| ==> sep !in parts[j]
  {
    if s == [] then [[]]
    else
      var rest := Split(s[1..], sep);
      if s[0] == sep then [[]] + rest
      else [[s[0]] + rest[0]] + rest[1..]
  }

  /** `parts.join(sep)`. */
  function Join(parts: seq<string>, sep: char): string
  {
    if parts == [] then []
    else if |parts| == 1 then parts[0]
    else parts[0] + [sep] + Join(parts[1..], sep)
  }

  /** The prefix of `s` before its first space: all of `s` when it has none. */
  function FirstToken(s: string): (r: string)
    ensures r <= s
    ensures Space !in r
    ensures |r| < |s| ==> s[|r|] == Space
  {
    if s == [] || s[0] == Space then [] else [s[0]] + FirstToken(s[1..])
  }

  /** Splitting loses nothing: joining the pieces back gives the original string. */
  lemma {:induction false} JoinSplit(s: string, sep: char)
    ensures Join(Split(s, sep), sep) == s
  {
    if s != [] {
      JoinSplit(s[1..], sep);
      var rest := Split(s[1..], sep);
      if s[0] == sep {
        assert ([[]] + rest)[1..] == rest;
      } else if |rest| > 1 {
        assert ([[s[0]] + rest[0]] + rest[1..])[1..] == rest[1..];
      }
    }
  }

  /** A string without the separator splits into itself alone. */
  lemma {:induction false} SplitWithoutSeparator(p: string, sep: char)
    requires sep !in p
    ensures Split(p, sep) == [p]
  {
    if p != [] {
      assert p[0] != sep;
      SplitWithoutSeparator(p[1..], sep);
      assert [p[0]] + p[1..] == p;
    }
  }

  /** A separator-free piece followed by the separator comes off as the first piece. */
  lemma {:induction false} SplitAfterPiece(p: string, sep: char, t: string)
    requires sep !in p
    ensures Split(p + [sep] + t, sep) == [p] + Split(t, sep)
  {
    var s := p + [sep] + t;
    if p == [] {
      assert s[1..] == t;
    } else {
      assert s[1..] == p[1..] + [sep] + t;
      SplitAfterPiece(p[1..], sep, t);
      assert [p[0]] + p[1..] == p;
    }
  }

  /** Joining separator-free pieces and splitting again gives the pieces back. */
  lemma {:induction false} SplitJoin(parts: seq<string>, sep: char)
    requires |parts| >= 1
    requires forall j :: 0 <= j < |parts| ==> sep !in parts[j]
    ensures Split(Join(parts, sep), sep) == parts
  {
    if |parts| == 1 {
      SplitWithoutSeparator(parts[0], sep);
    } else {
      SplitJoin(parts[1..], sep);
      SplitAfterPiece(parts[0], sep, Join(parts[1..], sep));
      assert [parts[0]] + parts[1..] == parts;
    }
  }

  /** The first piece of `split(' ')` is exactly the prefix before the first space. */
  lemma {:induction false} SplitHeadIsFirstToken(s: string)
    ensures Split(s, Space)[0] == FirstToken(s)
  {
    if s != [] && s[0] != Space {
      SplitHeadIsFirstToken(s[1..]);
    }
  }

  /** A command word followed by a space and anything at all has that word as its first token. */
  lemma {:induction false} FirstTokenOfWord(word: string, rest: string)
    requires Space !in word
    ensures FirstToken(word + [Space] + rest) == word
  {
    if word != [] {
      assert (word + [Space] + rest)[1..] == word[1..] + [Space] + rest;
      FirstTokenOfWord(word[1..], rest);
      assert [word[0]] + word[1..] == word;
    }
  }

  /** A string with no space is its own first token (a tab does not separate). */
  lemma {:induction false} FirstTokenWithoutSpace(s: string)
    requires Space !in s
    ensures FirstToken(s) == s
  {
    if s != [] {
      FirstTokenWithoutSpace(s[1..]);
      assert [s[0]] + s[1..] == s;
    }
  }

  /** Worked case: a command with arguments selects its command word. */
  lemma FirstTokenExample()
    ensures FirstToken("set key value") == "set"
  {
    FirstTokenOfWord("set", "key value");
    assert "set" + [Space] + "key value" == "set key value";
  }

  /** Edge cases: an empty command and a leading space select `""`; a tab does not separate. */
  lemma FirstTokenEdgeCases()
    ensures FirstToken("") == ""
    ensures FirstToken(" get foo") == ""
    ensures FirstToken("get\tfoo") == "get\tfoo"
  {
    FirstTokenWithoutSpace("get\tfoo");
  }

  /** Worked case of the echo text: letters are upper-cased, spaces and digits kept. */
  lemma UpperExample()
    ensures Upper("lpush x 1") == "LPUSH X 1"
  {
  }
}
