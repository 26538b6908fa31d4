/** Text as the file tools see it: substrings, and lines as `str.splitlines` finds them. */
module Texts {

  function LowerCase(s: string): (r: string)
    ensures |r| == |s|
  {
    seq(|s|, i requires 0 <= i < |s| => if 'A' <= s[i] <= 'Z' then (s[i] as int + 32) as char else s[i])
  }

  predicate Contains(s: string, word: string) {
    |word| <= |s| && (s[..|word|] == word || (s != [] && Contains(s[1..], word)))
  }

  /** The characters `str.splitlines` breaks at. */
  predicate IsBreak(c: char) {
    c in ['\n', '\r', '\U{B}', '\U{C}', '\U{1C}', '\U{1D}', '\U{1E}', '\U{85}', '\U{2028}', '\U{2029}']
  }

  /** `str.isspace` for one character. */
  predicate IsSpace(c: char) {
    || IsBreak(c) || '\U{2000}' <= c <= '\U{200A}'
    || c in ['\t', '\U{1F}', ' ', '\U{A0}', '\U{1680}', '\U{202F}', '\U{205F}', '\U{3000}']
  }

  predicate Plain(line: string) { forall c <- line :: !IsBreak(c) }

  function FirstBreak(s: string): (k: nat)
    ensures k <= |s| && Plain(s[..k]) && (k < |s| ==> IsBreak(s[k]))
  {
    if s == [] || IsBreak(s[0]) then 0 else 1 + FirstBreak(s[1..])
  }

  /** `str.splitlines()`: a break ends a line, `\r\n` is one break, and text behind the last break is a
      line if there is any. */
  function SplitLines(s: string): seq<string>
    decreases |s|
  {
    if s == [] then []
    else
      var k := FirstBreak(s);
      if k == |s| then [s]
      else [s[..k]] + SplitLines(s[k + (if s[k] == '\r' && k + 1 < |s| && s[k + 1] == '\n' then 2 else 1)..])
  }

  /** `"\n".join(lines)`. */
  function JoinLines(lines: seq<string>): string {
    if lines == [] then [] else if |lines| == 1 then lines[0] else lines[0] + "\n" + JoinLines(lines[1..])
  }

  lemma {:induction false} LinesArePlain(s: string)
    ensures forall line <- SplitLines(s) :: Plain(line)
    decreases |s|
  {
    if s != [] {
      var k := FirstBreak(s);
      if k < |s| {
        LinesArePlain(s[k + (if s[k] == '\r' && k + 1 < |s| && s[k + 1] == '\n' then 2 else 1)..]);
      } else {
        assert s[..k] == s;
      }
    }
  }

  lemma {:induction false} PlainPrefix(line: string, rest: string)
    requires Plain(line) && (rest == [] || IsBreak(rest[0]))
    ensures FirstBreak(line + rest) == |line|
  {
    if line == [] {
      assert line + rest == rest;
    } else {
      assert line[0] in line;
      assert (line + rest)[1..] == line[1..] + rest;
      PlainPrefix(line[1..], rest);
    }
  }

  lemma SplitFirst(line: string, rest: string)
    requires Plain(line)
    ensures SplitLines(line + "\n" + rest) == [line] + SplitLines(rest)
  {
    var text := line + ("\n" + rest);
    assert text == line + "\n" + rest;
    PlainPrefix(line, "\n" + rest);
    assert text[..|line|] == line && text[|line|] == '\n' && text[|line| + 1..] == rest;
  }

  lemma SplitOnly(line: string)
    requires Plain(line)
    ensures SplitLines(line) == if line == [] then [] else [line]
  {
    PlainPrefix(line, []);
    assert line + [] == line;
  }

  /** The lines but for an empty last one. */
  function WithoutEmptyEnd(lines: seq<string>): seq<string> {
    if lines != [] && lines[|lines| - 1] == [] then lines[..|lines| - 1] else lines
  }

  lemma EndOfRest(lines: seq<string>)
    requires |lines| > 1
    ensures WithoutEmptyEnd(lines) == [lines[0]] + WithoutEmptyEnd(lines[1..])
  {
  }

  /** Splitting lines that were split and joined again loses nothing but an empty last line. */
  lemma {:induction false} ResplitLines(lines: seq<string>)
    requires forall line <- lines :: Plain(line)
    ensures SplitLines(JoinLines(lines)) == WithoutEmptyEnd(lines)
    decreases |lines|
  {
    if |lines| == 1 {
      SplitOnly(lines[0]);
    } else if |lines| > 1 {
      var rest := lines[1..];
      assert forall line <- rest :: line in lines;
      SplitFirst(lines[0], JoinLines(rest));
      ResplitLines(rest);
      EndOfRest(lines);
    }
  }

  /** `s.split("/")`. */
  function SplitSlash(s: string): (parts: seq<string>)
    ensures parts != []
    ensures forall part <- parts :: '/' !in part
  {
    if s == [] then [[]]
    else
      var rest := SplitSlash(s[1..]);
      if s[0] == '/' then [[]] + rest else [[s[0]] + rest[0]] + rest[1..]
  }
}
