// Lines of the script format: words, trimming, comments, and the split of a
// word into a key and a value.
module Lexer {
  import opened Evidence
  import opened Sequences

  predicate IsSpace(c: char) {
    c == ' ' || 9 <= c as int <= 13
  }

  predicate NoSpace(s: string) {
    forall c <- s :: !IsSpace(c)
  }

  // ---- words -------------------------------------------------------------------------------

  function WordLength(line: string): (n: nat)
    ensures n <= |line| && NoSpace(line[..n])
    ensures n < |line| ==> IsSpace(line[n])
  {
    if line == [] || IsSpace(line[0]) then 0
    else
      var n := WordLength(line[1..]);
      assert line[..n + 1] == [line[0]] + line[1..][..n];
      n + 1
  }

  function Words(line: string): seq<string>
    decreases |line|
  {
    if line == [] then []
    else if IsSpace(line[0]) then Words(line[1..])
    else [line[..WordLength(line)]] + Words(line[WordLength(line)..])
  }

  method Tokenize(line: string) returns (tokens: seq<string>)
    ensures tokens == Words(line)
  {
    hide WordLength, Words;
    tokens := [];
    var index := 0;
    assert line[0..] == line;
    while index < |line|
      invariant index <= |line| && tokens + Words(line[index..]) == Words(line)
    {
      while index < |line| && IsSpace(line[index])
        invariant index <= |line| && tokens + Words(line[index..]) == Words(line)
      {
        SpaceSkipped(line, index);
        index := index + 1;
      }
      if index >= |line| {
        break;
      }
      var begin := index;
      while index < |line| && !IsSpace(line[index])
        invariant begin <= index <= |line|
        invariant WordLength(line[begin..]) == (index - begin) + WordLength(line[index..])
        invariant index == begin ==> !IsSpace(line[index])
        decreases |line| - index
      {
        LetterTaken(line, index);
        index := index + 1;
      }
      WordEnds(line, index);
      OneWord(line, begin, index);
      Regroup(tokens, [line[begin..index]], Words(line[index..]));
      tokens := tokens + [line[begin..index]];
    }
    NoWords(line[index..]);
  }

  lemma {:induction false} SpaceSkipped(line: string, i: nat)
    requires i < |line| && IsSpace(line[i])
    ensures Words(line[i..]) == Words(line[i + 1..])
  {
    assert line[i..][1..] == line[i + 1..];
  }

  lemma {:induction false} LetterTaken(line: string, i: nat)
    requires i < |line| && !IsSpace(line[i])
    ensures WordLength(line[i..]) == 1 + WordLength(line[i + 1..])
  {
    assert line[i..][1..] == line[i + 1..];
  }

  lemma {:induction false} WordEnds(line: string, i: nat)
    requires i <= |line| && (i < |line| ==> IsSpace(line[i]))
    ensures WordLength(line[i..]) == 0
  {
  }

  lemma {:induction false} NoWords(line: string)
    ensures line == [] ==> Words(line) == []
  {
  }

  lemma {:induction false} OneWord(line: string, begin: nat, end: nat)
    requires begin < end <= |line| && !IsSpace(line[begin]) && WordLength(line[begin..]) == end - begin
    ensures Words(line[begin..]) == [line[begin..end]] + Words(line[end..])
  {
    assert line[begin..][..end - begin] == line[begin..end];
    assert line[begin..][end - begin..] == line[end..];
  }

  // Words with one space between them.
  function Joined(words: seq<string>): string {
    if words == [] then []
    else if |words| == 1 then words[0]
    else words[0] + [' '] + Joined(words[1..])
  }

  ghost predicate AreWords(words: seq<string>) {
    forall w <- words :: w != [] && NoSpace(w)
  }

  lemma {:induction false} WordLengthOf(word: string, rest: string)
    requires NoSpace(word) && (rest == [] || IsSpace(rest[0]))
    ensures WordLength(word + rest) == |word|
  {
    if word == [] {
      assert word + rest == rest;
    } else {
      assert word[0] in word;
      assert (word + rest)[1..] == word[1..] + rest;
      WordLengthOf(word[1..], rest);
    }
  }

  // A word in front, and what comes behind it.
  lemma {:induction false} WordFirst(word: string, rest: string)
    requires word != [] && NoSpace(word) && (rest == [] || IsSpace(rest[0]))
    ensures Words(word + rest) == [word] + Words(rest)
  {
    WordLengthOf(word, rest);
    assert word[0] in word && (word + rest)[0] == word[0];
    AfterFirst(word, rest);
  }

  lemma {:induction false} SpaceFirst(rest: string)
    ensures Words([' '] + rest) == Words(rest)
  {
    assert ([' '] + rest)[1..] == rest;
  }

  // Joined words are told apart again.
  lemma {:induction false} WordsOfJoined(words: seq<string>)
    requires AreWords(words)
    ensures Words(Joined(words)) == words
  {
    hide Words, NoSpace;
    if words == [] {
      NoWords([]);
    } else {
      var word, others := words[0], words[1..];
      assert word in words;
      if others == [] {
        NoWords([]);
        WordFirst(word, []);
        assert word + [] == word;
      } else {
        forall w | w in others
          ensures w != [] && NoSpace(w)
        {
          assert w in words;
        }
        WordsOfJoined(others);
        SpaceFirst(Joined(others));
        WordFirst(word, [' '] + Joined(others));
        Regroup(word, [' '], Joined(others));
      }
      assert words == [word] + others;
    }
  }

  // ---- trimming and comments ------------------------------------------------------------------

  function TrimLeft(line: string): string {
    if line != [] && IsSpace(line[0]) then TrimLeft(line[1..]) else line
  }

  function TrimRight(line: string): string {
    if line != [] && IsSpace(line[|line| - 1]) then TrimRight(line[..|line| - 1]) else line
  }

  function Trim(line: string): string {
    TrimRight(TrimLeft(line))
  }

  // The position of the first space that is followed by a number sign.
  function CommentAt(line: string): (n: nat)
    ensures n <= |line|
  {
    if |line| < 2 then |line|
    else if line[0] == ' ' && line[1] == '#' then 0
    else 1 + CommentAt(line[1..])
  }

  function Content(line: string): string {
    var trimmed := Trim(line);
    var n := CommentAt(trimmed);
    if n == |trimmed| then trimmed else Trim(trimmed[..n])
  }

  lemma {:induction false} JoinedEnds(words: seq<string>)
    requires AreWords(words) && words != []
    ensures Joined(words) != [] && words[0] != [] && Joined(words)[0] == words[0][0]
    ensures !IsSpace(Joined(words)[|Joined(words)| - 1])
  {
    assert words[0] in words;
    if |words| > 1 {
      JoinedEnds(words[1..]);
      var line, tail := Joined(words), Joined(words[1..]);
      assert line[|line| - 1] == tail[|tail| - 1];
    }
  }

  // Text without a space that stands before a number sign has no comment.
  lemma {:induction false} NoComment(line: string)
    requires forall i :: 0 <= i < |line| - 1 ==> !(line[i] == ' ' && line[i + 1] == '#')
    ensures CommentAt(line) == |line|
  {
    if |line| >= 2 {
      var rest := line[1..];
      forall i | 0 <= i < |rest| - 1
        ensures !(rest[i] == ' ' && rest[i + 1] == '#')
      {
        assert rest[i] == line[i + 1] && rest[i + 1] == line[i + 2];
      }
      NoComment(rest);
    }
  }

  lemma {:induction false} SpacesInJoined(words: seq<string>, i: nat)
    requires AreWords(words) && (forall w <- words :: w[0] != '#') && i < |Joined(words)| - 1
    ensures !(Joined(words)[i] == ' ' && Joined(words)[i + 1] == '#')
  {
    if words != [] {
      var w := words[0];
      assert w in words;
      if i < |w| {
        assert Joined(words)[i] == w[i] && w[i] in w;
      } else {
        var tail := Joined(words[1..]);
        assert |words| > 1;
        JoinedEnds(words[1..]);
        assert words[1..][0] in words;
        if i == |w| {
          assert Joined(words)[i + 1] == tail[0];
        } else {
          assert Joined(words)[i] == tail[i - |w| - 1] && Joined(words)[i + 1] == tail[i - |w|];
          SpacesInJoined(words[1..], i - |w| - 1);
        }
      }
    }
  }

  // A line made of words, none of them a comment, is its own content.
  lemma {:induction false} ContentOfJoined(words: seq<string>)
    requires AreWords(words) && words != [] && forall w <- words :: w[0] != '#'
    ensures Content(Joined(words)) == Trim(Joined(words)) == Joined(words)
  {
    var line := Joined(words);
    JoinedEnds(words);
    assert words[0] in words && words[0][0] in words[0];
    assert TrimLeft(line) == line && TrimRight(line) == line;
    forall i | 0 <= i < |line| - 1
      ensures !(line[i] == ' ' && line[i + 1] == '#')
    {
      SpacesInJoined(words, i);
    }
    NoComment(line);
  }

  // No word of any line has white space in it.
  lemma {:induction false} WordsHaveNoSpace(line: string)
    ensures forall w <- Words(line) :: NoSpace(w)
    decreases |line|
  {
    if line != [] {
      if IsSpace(line[0]) {
        WordsHaveNoSpace(line[1..]);
      } else {
        WordsHaveNoSpace(line[WordLength(line)..]);
      }
    }
  }

  // ---- keys and values ---------------------------------------------------------------------------

  // The position of the first equals sign.
  function EqualsAt(word: string): (n: nat)
    ensures n <= |word|
    ensures n < |word| ==> word[n] == '='
    ensures forall i :: 0 <= i < n ==> word[i] != '='
  {
    if word == [] || word[0] == '=' then 0 else 1 + EqualsAt(word[1..])
  }

  lemma {:induction false} FirstEquals(key: string, rest: string)
    requires '=' !in key && rest != [] && rest[0] == '='
    ensures EqualsAt(key + rest) == |key|
  {
    if key == [] {
      assert key + rest == rest;
    } else {
      assert (key + rest)[1..] == key[1..] + rest;
      FirstEquals(key[1..], rest);
    }
  }

  lemma {:induction false} SplitsBack(key: string, value: string)
    requires '=' !in key
    ensures var word := key + ['='] + value;
            EqualsAt(word) == |key| && word[..|key|] == key && word[|key| + 1..] == value
  {
    FirstEquals(key, ['='] + value);
    assert key + ['='] + value == key + (['='] + value);
  }
}
