/** The string operations the source takes from the standard library and boost:
  trim, split and toupper, and the words of a string. */
module Text {

  /** isspace in the C locale. */
  predicate IsSpace(c: char) {
    c == ' ' || c == '\t' || c == '\n' || c == '\U{0B}' || c == '\U{0C}' || c == '\r'
  }

  function Upper(c: char): char {
    if 'a' <= c <= 'z' then c - 'a' + 'A' else c
  }

  function ToUpper(s: string): (u: string)
    ensures |u| == |s|
  {
    seq(|s|, i requires 0 <= i < |s| => Upper(s[i]))
  }

  function Lower(c: char): char {
    if 'A' <= c <= 'Z' then c - 'A' + 'a' else c
  }

  function ToLower(s: string): (l: string)
    ensures |l| == |s|
  {
    seq(|s|, i requires 0 <= i < |s| => Lower(s[i]))
  }

  function TrimLeft(s: string): string {
    if s != [] && IsSpace(s[0]) then TrimLeft(s[1..]) else s
  }

  function TrimRight(s: string): string
    decreases |s|
  {
    if s != [] && IsSpace(s[|s| - 1]) then TrimRight(s[..|s| - 1]) else s
  }

  /** boost::algorithm::trim. */
  function Trim(s: string): string {
    TrimRight(TrimLeft(s))
  }

  /** boost::split without token compression: the stretches between separators,
      empty ones included. */
  function Split(s: string, separators: set<char>): (tokens: seq<string>)
    ensures |tokens| > 0
  {
    if s == [] then [[]]
    else
      var rest := Split(s[1..], separators);
      if s[0] in separators then [[]] + rest else [[s[0]] + rest[0]] + rest[1..]
  }

  /** The longest prefix of s without white space. */
  function FirstWord(s: string): (w: string)
    ensures |w| <= |s| && w == s[..|w|]
    ensures s != [] && !IsSpace(s[0]) ==> w != []
  {
    if s == [] || IsSpace(s[0]) then [] else [s[0]] + FirstWord(s[1..])
  }

  /** The maximal stretches of s without white space. */
  function Words(s: string): seq<string>
    decreases |s|
  {
    if s == [] then []
    else if IsSpace(s[0]) then Words(s[1..])
    else [FirstWord(s)] + Words(s[|FirstWord(s)|..])
  }

  /** Words written out with one space between them. */
  function Joined(words: seq<string>): string {
    if words == [] then []
    else if |words| == 1 then words[0]
    else words[0] + [' '] + Joined(words[1..])
  }

  ghost predicate IsWord(w: string) {
    w != [] && forall i :: 0 <= i < |w| ==> !IsSpace(w[i])
  }

  /** Tokens written out with separators between them. */
  function Written(tokens: seq<string>, separators: seq<char>): (s: string)
    requires |tokens| == |separators| + 1
  {
    if separators == [] then tokens[0] else tokens[0] + [separators[0]] + Written(tokens[1..], separators[1..])
  }

  ghost predicate AllIn(cs: seq<char>, separators: set<char>) {
    forall i :: 0 <= i < |cs| ==> cs[i] in separators
  }

  ghost predicate NoneIn(cs: seq<char>, separators: set<char>) {
    forall i :: 0 <= i < |cs| ==> cs[i] !in separators
  }

  // ----- Characters -----

  /** White space is the codes 9 to 13 and 32; the letters' cases are 32 apart, and
      nothing but a to z and A to Z changes. */
  lemma CharacterCodes(s: string, i: nat)
    requires i < |s|
    ensures IsSpace(s[i]) <==> 9 <= s[i] as int <= 13 || s[i] as int == 32
    ensures ToUpper(s)[i] as int == s[i] as int - if 97 <= s[i] as int <= 122 then 32 else 0
    ensures ToLower(s)[i] as int == s[i] as int + if 65 <= s[i] as int <= 90 then 32 else 0
  {
  }

  /** Upper-case strings are told apart by their lower-case forms. */
  lemma LowerOfUpper(s: string, t: string)
    ensures ToUpper(ToUpper(s)) == ToUpper(s)
    ensures ToLower(ToUpper(s)) == ToLower(ToUpper(t)) <==> ToUpper(s) == ToUpper(t)
  {
    var a, b := ToUpper(s), ToUpper(t);
    if ToLower(a) == ToLower(b) {
      assert |a| == |b|;
      forall i | 0 <= i < |a| ensures a[i] == b[i] {
        assert ToLower(a)[i] == ToLower(b)[i];
      }
    }
  }

  // ----- Splitting -----

  lemma {:induction false} SplitToken(token: string, separator: char, rest: string, separators: set<char>)
    requires NoneIn(token, separators) && separator in separators
    ensures Split(token + [separator] + rest, separators) == [token] + Split(rest, separators)
  {
    var s := token + [separator] + rest;
    if token == [] {
      assert s[1..] == rest;
    } else {
      assert s[1..] == token[1..] + [separator] + rest;
      SplitToken(token[1..], separator, rest, separators);
      assert [s[0]] + token[1..] == token;
    }
  }

  lemma {:induction false} SplitLast(token: string, separators: set<char>)
    requires NoneIn(token, separators)
    ensures Split(token, separators) == [token]
  {
    if token != [] {
      SplitLast(token[1..], separators);
      assert [token[0]] + token[1..] == token;
    }
  }

  /** Tokens without separators, written out with any separators between them, are
      found again, empty ones included. */
  lemma {:induction false} SplitOfWritten(tokens: seq<string>, between: seq<char>, separators: set<char>)
    requires |tokens| == |between| + 1 && AllIn(between, separators)
    requires forall i :: 0 <= i < |tokens| ==> NoneIn(tokens[i], separators)
    ensures Split(Written(tokens, between), separators) == tokens
  {
    if between == [] {
      SplitLast(tokens[0], separators);
    } else {
      SplitOfWritten(tokens[1..], between[1..], separators);
      SplitToken(tokens[0], between[0], Written(tokens[1..], between[1..]), separators);
    }
  }

  /** And every string is so written, in one way only. */
  lemma {:induction false} WrittenOfSplit(s: string, separators: set<char>) returns (between: seq<char>)
    ensures |Split(s, separators)| == |between| + 1 && AllIn(between, separators)
    ensures forall i :: 0 <= i < |Split(s, separators)| ==> NoneIn(Split(s, separators)[i], separators)
    ensures Written(Split(s, separators), between) == s
  {
    if s == [] {
      between := [];
    } else {
      var later := WrittenOfSplit(s[1..], separators);
      var rest, tokens := Split(s[1..], separators), Split(s, separators);
      if s[0] in separators {
        between := [s[0]] + later;
        assert tokens[1..] == rest && between[1..] == later;
      } else {
        between := later;
        assert tokens[0] == [s[0]] + rest[0] && tokens[1..] == rest[1..];
        assert between != [] ==> tokens[0] + [between[0]] == [s[0]] + (rest[0] + [between[0]]);
      }
      assert [s[0]] + s[1..] == s;
    }
  }

  // ----- Trimming -----

  lemma {:induction false} WordsOfTrimLeft(s: string)
    ensures Words(TrimLeft(s)) == Words(s)
  {
    if s != [] && IsSpace(s[0]) {
      WordsOfTrimLeft(s[1..]);
    }
  }

  lemma {:induction false} WordsIgnoreLastSpace(s: string, c: char)
    requires IsSpace(c)
    ensures Words(s + [c]) == Words(s)
    decreases |s|
  {
    if s == [] {
      assert (s + [c])[1..] == [];
    } else if IsSpace(s[0]) {
      assert (s + [c])[1..] == s[1..] + [c];
      WordsIgnoreLastSpace(s[1..], c);
    } else {
      FirstWordIgnoresLastSpace(s, c);
      var n := |FirstWord(s)|;
      assert (s + [c])[n..] == s[n..] + [c];
      WordsIgnoreLastSpace(s[n..], c);
    }
  }

  lemma {:induction false} FirstWordIgnoresLastSpace(s: string, c: char)
    requires IsSpace(c)
    ensures FirstWord(s + [c]) == FirstWord(s)
  {
    if s != [] {
      assert (s + [c])[1..] == s[1..] + [c];
      FirstWordIgnoresLastSpace(s[1..], c);
    }
  }

  lemma {:induction false} WordsOfTrimRight(s: string)
    ensures Words(TrimRight(s)) == Words(s)
    decreases |s|
  {
    if s != [] && IsSpace(s[|s| - 1]) {
      var n := |s| - 1;
      assert s == s[..n] + [s[n]];
      WordsIgnoreLastSpace(s[..n], s[n]);
      WordsOfTrimRight(s[..n]);
    }
  }

  lemma {:induction false} TrimmedLeftStarts(s: string)
    ensures TrimLeft(s) != [] ==> !IsSpace(TrimLeft(s)[0])
  {
    if s != [] && IsSpace(s[0]) {
      TrimmedLeftStarts(s[1..]);
    }
  }

  lemma {:induction false} TrimmedRightEnds(s: string)
    ensures var t := TrimRight(s);
      |t| <= |s| && t == s[..|t|] && (t != [] ==> !IsSpace(t[|t| - 1]))
    decreases |s|
  {
    if s != [] && IsSpace(s[|s| - 1]) {
      TrimmedRightEnds(s[..|s| - 1]);
    }
  }

  /** A trimmed string has the words of the original and no blank at its ends. */
  lemma TrimKeepsWords(s: string)
    ensures Words(Trim(s)) == Words(s)
    ensures Trim(s) != [] ==> !IsSpace(Trim(s)[0]) && !IsSpace(Trim(s)[|Trim(s)| - 1])
  {
    WordsOfTrimLeft(s);
    WordsOfTrimRight(TrimLeft(s));
    TrimmedLeftStarts(s);
    TrimmedRightEnds(TrimLeft(s));
  }

  lemma {:induction false} TrimLeftCuts(s: string)
    ensures |TrimLeft(s)| <= |s| && TrimLeft(s) == s[|s| - |TrimLeft(s)|..]
    ensures forall k :: 0 <= k < |s| - |TrimLeft(s)| ==> IsSpace(s[k])
  {
    if s != [] && IsSpace(s[0]) {
      TrimLeftCuts(s[1..]);
      assert forall k :: 1 <= k < |s| ==> s[k] == s[1..][k - 1];
    }
  }

  lemma {:induction false} TrimRightCuts(s: string)
    ensures |TrimRight(s)| <= |s| && TrimRight(s) == s[..|TrimRight(s)|]
    ensures forall k :: |TrimRight(s)| <= k < |s| ==> IsSpace(s[k])
    decreases |s|
  {
    if s != [] && IsSpace(s[|s| - 1]) {
      TrimRightCuts(s[..|s| - 1]);
    }
  }

  /** Trimming cuts off nothing but blanks, and only at the ends. */
  lemma TrimCuts(s: string) returns (from: nat, to: nat)
    ensures from <= to <= |s| && Trim(s) == s[from..to]
    ensures forall k :: 0 <= k < from || to <= k < |s| ==> IsSpace(s[k])
    ensures from < to ==> !IsSpace(s[from]) && !IsSpace(s[to - 1])
    ensures Trim(s) == [] <==> forall k :: 0 <= k < |s| ==> IsSpace(s[k])
  {
    var t := TrimLeft(s);
    TrimLeftCuts(s);
    TrimRightCuts(t);
    TrimKeepsWords(s);
    from := |s| - |t|;
    to := from + |Trim(s)|;
    assert forall k :: from <= k < |s| ==> s[k] == t[k - from];
    assert from < to ==> s[from] == Trim(s)[0] && s[to - 1] == Trim(s)[|Trim(s)| - 1];
  }

  lemma TrimWord(w: string)
    requires IsWord(w)
    ensures Trim(w) == w
  {
  }

  lemma {:induction false} FirstWordIsWord(s: string)
    ensures forall i :: 0 <= i < |FirstWord(s)| ==> !IsSpace(FirstWord(s)[i])
    ensures |FirstWord(s)| < |s| ==> IsSpace(s[|FirstWord(s)|])
  {
    if s != [] && !IsSpace(s[0]) {
      FirstWordIsWord(s[1..]);
    }
  }

  lemma {:induction false} WordsAreWords(s: string)
    ensures forall i :: 0 <= i < |Words(s)| ==> IsWord(Words(s)[i])
    decreases |s|
  {
    if s != [] {
      if IsSpace(s[0]) {
        WordsAreWords(s[1..]);
      } else {
        FirstWordIsWord(s);
        WordsAreWords(s[|FirstWord(s)|..]);
      }
    }
  }

  // ----- Joining -----

  lemma {:induction false} FirstWordOf(w: string, rest: string)
    requires forall i :: 0 <= i < |w| ==> !IsSpace(w[i])
    requires rest == [] || IsSpace(rest[0])
    ensures FirstWord(w + rest) == w
  {
    if w == [] {
      assert w + rest == rest;
    } else {
      assert (w + rest)[0] == w[0] && (w + rest)[1..] == w[1..] + rest;
      FirstWordOf(w[1..], rest);
    }
  }

  lemma {:induction false} WordsOfJoined(words: seq<string>)
    requires forall i :: 0 <= i < |words| ==> IsWord(words[i])
    ensures Words(Joined(words)) == words
  {
    if |words| == 1 {
      FirstWordOf(words[0], []);
      assert words[0] + [] == words[0];
    } else if |words| > 1 {
      var w, rest := words[0], [' '] + Joined(words[1..]);
      assert Joined(words) == w + rest;
      assert IsWord(w);
      FirstWordOf(w, rest);
      assert (w + rest)[|w|..] == rest && rest[1..] == Joined(words[1..]);
      WordsOfJoined(words[1..]);
    }
  }
}
