/**
 * The string helpers the telnet client relies on: suffix and prefix tests,
 * strip_end (flightgear_python/general_util.py and flightgear_python/fg_if.py),
 * Python's rstrip of one character, and str.split on "\r\n". Text is a
 * sequence of characters; byte strings and Unicode strings behave alike here.
 */
module Text {

  predicate StartsWith<T(==)>(s: seq<T>, prefix: seq<T>)
  {
    |prefix| <= |s| && s[..|prefix|] == prefix
  }

  predicate EndsWith<T(==)>(s: seq<T>, suffix: seq<T>)
  {
    |suffix| <= |s| && s[|s| - |suffix|..] == suffix
  }

  /** strip_end: drop `suffix` from the end of `text` when it is non-empty and present. */
  function StripEnd<T(==)>(text: seq<T>, suffix: seq<T>): seq<T>
  {
    if |suffix| > 0 && EndsWith(text, suffix) then text[..|text| - |suffix|] else text
  }

  /** A present, non-empty suffix is removed exactly once: putting it back gives the text. */
  lemma StripEndRemoves<T>(text: seq<T>, suffix: seq<T>)
    requires |suffix| > 0 && EndsWith(text, suffix)
    ensures StripEnd(text, suffix) + suffix == text
    ensures |StripEnd(text, suffix)| == |text| - |suffix|
  {
    assert text == text[..|text| - |suffix|] + text[|text| - |suffix|..];
  }

  /** An empty or absent suffix leaves the text unchanged. */
  lemma StripEndKeeps<T>(text: seq<T>, suffix: seq<T>)
    requires |suffix| == 0 || !EndsWith(text, suffix)
    ensures StripEnd(text, suffix) == text
  {
  }

  /** The result is always a prefix of the text, one suffix shorter or not shorter at all. */
  lemma StripEndPrefix<T>(text: seq<T>, suffix: seq<T>)
    ensures StartsWith(text, StripEnd(text, suffix))
    ensures |StripEnd(text, suffix)| == |text| || |StripEnd(text, suffix)| == |text| - |suffix|
  {
  }

  /** Stripping undoes appending a non-empty suffix. */
  lemma StripEndAppend<T>(r: seq<T>, suffix: seq<T>)
    requires |suffix| > 0
    ensures StripEnd(r + suffix, suffix) == r
  {
    assert (r + suffix)[|r|..] == suffix;
    assert (r + suffix)[..|r|] == r;
  }

  /** Python's rstrip(c): drop every trailing c. */
  function RStrip(s: seq<char>, c: char): (r: seq<char>)
    ensures StartsWith(s, r)
    ensures r == [] || r[|r| - 1] != c
    ensures forall i :: |r| <= i < |s| ==> s[i] == c
  {
    if s != [] && s[|s| - 1] == c then RStrip(s[..|s| - 1], c) else s
  }

  /** Stripping twice is stripping once. */
  lemma RStripIdempotent(s: seq<char>, c: char)
    ensures RStrip(RStrip(s, c), c) == RStrip(s, c)
  {
  }

  const CRLF: seq<char> := "\r\n"

  /** Python's str.split("\r\n"): the pieces between separators, at least one. */
  function Split(s: seq<char>): (pieces: seq<seq<char>>)
    ensures |pieces| >= 1
  {
    if s == [] then [[]]
    else if |s| >= 2 && s[0] == '\r' && s[1] == '\n' then [[]] + Split(s[2..])
    else
      var rest := Split(s[1..]);
      [[s[0]] + rest[0]] + rest[1..]
  }

  /** Joining the pieces with "\r\n" between them. */
  function Join(pieces: seq<seq<char>>): seq<char>
  {
    if pieces == [] then []
    else if |pieces| == 1 then pieces[0]
    else pieces[0] + CRLF + Join(pieces[1..])
  }

  predicate HasCRLF(s: seq<char>)
  {
    exists i :: 0 <= i < |s| - 1 && s[i] == '\r' && s[i + 1] == '\n'
  }

  lemma JoinCons(p: seq<char>, rest: seq<seq<char>>)
    requires rest != []
    ensures Join([p] + rest) == p + CRLF + Join(rest)
  {
    assert ([p] + rest)[1..] == rest;
  }

  /** Putting one character in front of the first piece puts it in front of the joined text. */
  lemma JoinConsHead(c: char, rest: seq<seq<char>>)
    requires rest != []
    ensures Join([[c] + rest[0]] + rest[1..]) == [c] + Join(rest)
  {
    if |rest| > 1 {
      JoinCons([c] + rest[0], rest[1..]);
      JoinCons(rest[0], rest[1..]);
      assert rest == [rest[0]] + rest[1..];
    }
  }

  /** Splitting and joining again gives back the text. */
  lemma {:induction false} JoinSplit(s: seq<char>)
    ensures Join(Split(s)) == s
  {
    if s == [] {
    } else if |s| >= 2 && s[0] == '\r' && s[1] == '\n' {
      JoinSplit(s[2..]);
      JoinCons([], Split(s[2..]));
      assert s == CRLF + s[2..];
    } else {
      JoinSplit(s[1..]);
      JoinConsHead(s[0], Split(s[1..]));
      assert s == [s[0]] + s[1..];
    }
  }

  /** No piece of a split contains the separator. */
  lemma {:induction false} SplitPiecesClean(s: seq<char>)
    ensures forall i :: 0 <= i < |Split(s)| ==> !HasCRLF(Split(s)[i])
  {
    if s == [] {
    } else if |s| >= 2 && s[0] == '\r' && s[1] == '\n' {
      SplitPiecesClean(s[2..]);
      var r := Split(s[2..]);
      assert forall i :: 1 <= i < |Split(s)| ==> Split(s)[i] == r[i - 1];
    } else {
      SplitPiecesClean(s[1..]);
      SplitHeadStart(s[1..]);
      var rest := Split(s[1..]);
      var head := [s[0]] + rest[0];
      assert forall i :: 1 <= i < |head| - 1 ==> head[i] == rest[0][i - 1] && head[i + 1] == rest[0][i];
      assert forall i :: 1 <= i < |Split(s)| ==> Split(s)[i] == rest[i];
    }
  }

  /** The first piece of a split starts where the text starts. */
  lemma {:induction false} SplitHeadStart(s: seq<char>)
    ensures StartsWith(s, Split(s)[0])
  {
    if s == [] {
    } else if |s| >= 2 && s[0] == '\r' && s[1] == '\n' {
    } else {
      SplitHeadStart(s[1..]);
    }
  }
}
