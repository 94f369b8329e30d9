/** Splitting text at line feeds, as `String.prototype.split('\n')` does, joining it and trimming it. */
module Text {
  function SplitLf(s: string): (lines: seq<string>)
    ensures |lines| >= 1
  {
    if s == "" then [""]
    else
      var rest := SplitLf(s[1..]);
      if s[0] == '\n' then [""] + rest else [[s[0]] + rest[0]] + rest[1..]
  }

  function Init<T>(s: seq<T>): (r: seq<T>)
    requires s != []
  {
    s[..|s| - 1]
  }

  function Last<T>(s: seq<T>): (r: T)
    requires s != []
  {
    s[|s| - 1]
  }

  /** Only the unfinished last line of a text can be changed by what follows it. */
  lemma {:induction false} SplitLfAppend(x: string, y: string)
    ensures SplitLf(x + y) == Init(SplitLf(x)) + SplitLf(Last(SplitLf(x)) + y)
  {
    if x == "" {
      assert "" + y == y;
      assert Init([""]) + SplitLf(y) == SplitLf(y);
    } else {
      SplitLfAppend(x[1..], y);
      assert (x + y)[1..] == x[1..] + y;
      if x[0] == '\n' {
        SplitAfterFeed(SplitLf(x[1..]), SplitLf(Last(SplitLf(x[1..])) + y));
      } else {
        SplitAfterChar(x[0], SplitLf(x[1..]), y);
      }
    }
  }

  lemma SplitAfterFeed(rest: seq<string>, tail: seq<string>)
    requires rest != []
    ensures [""] + (Init(rest) + tail) == Init([""] + rest) + tail
    ensures Last([""] + rest) == Last(rest)
  {
    assert Init([""] + rest) == [""] + Init(rest);
  }

  lemma SplitAfterChar(c: char, rest: seq<string>, y: string)
    requires c != '\n' && rest != []
    ensures var tail := SplitLf(Last(rest) + y);
            var lines := Init(rest) + tail;
            var head := [[c] + rest[0]] + rest[1..];
            [[c] + lines[0]] + lines[1..] == Init(head) + SplitLf(Last(head) + y)
  {
    var tail := SplitLf(Last(rest) + y);
    var head := [[c] + rest[0]] + rest[1..];
    if |rest| == 1 {
      assert Init(rest) + tail == tail;
      SplitLfCons(c, rest[0] + y);
      assert [c] + rest[0] + y == [c] + (rest[0] + y);
      assert Init(head) + SplitLf(Last(head) + y) == SplitLf(Last(head) + y);
    } else {
      assert (Init(rest) + tail)[1..] == Init(rest)[1..] + tail;
      assert Init(head) == [[c] + rest[0]] + Init(rest)[1..];
    }
  }

  lemma SplitLfCons(c: char, s: string)
    requires c != '\n'
    ensures SplitLf([c] + s) == [[c] + SplitLf(s)[0]] + SplitLf(s)[1..]
  {
    assert ([c] + s)[1..] == s;
  }

  /** A text without a line feed is one line. */
  lemma {:induction false} SplitLfOneLine(s: string)
    requires '\n' !in s
    ensures SplitLf(s) == [s]
  {
    if s != "" {
      SplitLfOneLine(s[1..]);
      assert s == [s[0]] + s[1..];
    }
  }

  /** A line feed ends the line before it. */
  lemma {:induction false} SplitAtFeed(line: string, rest: string)
    requires '\n' !in line
    ensures SplitLf(line + ("\n" + rest)) == [line] + SplitLf(rest)
  {
    var s := line + ("\n" + rest);
    if line == "" {
      assert s[1..] == rest;
    } else {
      SplitAtFeed(line[1..], rest);
      assert s[1..] == line[1..] + ("\n" + rest);
      assert line == [line[0]] + line[1..];
    }
  }

  /** What stands before a text on the same line stands before its first line. */
  lemma {:induction false} SplitLfPrefix(x: string, y: string)
    requires '\n' !in x
    ensures SplitLf(x + y) == [x + SplitLf(y)[0]] + SplitLf(y)[1..]
  {
    if x == "" {
      assert x + y == y && x + SplitLf(y)[0] == SplitLf(y)[0];
    } else {
      SplitLfPrefix(x[1..], y);
      assert x + y == [x[0]] + (x[1..] + y) && x == [x[0]] + x[1..];
      SplitLfCons(x[0], x[1..] + y);
      assert [x[0]] + (x[1..] + SplitLf(y)[0]) == x + SplitLf(y)[0];
    }
  }

  /** No line keeps a line feed. */
  lemma {:induction false} SplitLfLines(s: string)
    ensures forall i :: 0 <= i < |SplitLf(s)| ==> '\n' !in SplitLf(s)[i]
  {
    if s != "" {
      SplitLfLines(s[1..]);
    }
  }

  /** A line without the carriage return it may end with. */
  function WithoutCr(line: string): (r: string) {
    if line != "" && Last(line) == '\r' then Init(line) else line
  }

  /** A text with line feeds for its CR-LF pairs. */
  function WithoutCrLf(s: string): (r: string) {
    if s == "" then ""
    else if |s| >= 2 && s[0] == '\r' && s[1] == '\n' then "\n" + WithoutCrLf(s[2..])
    else [s[0]] + WithoutCrLf(s[1..])
  }

  /** Lines joined by line feeds. */
  function JoinLf(lines: seq<string>): (s: string) {
    if lines == [] then ""
    else if |lines| == 1 then lines[0]
    else lines[0] + "\n" + JoinLf(lines[1..])
  }

  /** Splitting loses nothing. */
  lemma {:induction false} JoinUndoesSplit(s: string)
    ensures JoinLf(SplitLf(s)) == s
  {
    if s != "" {
      JoinUndoesSplit(s[1..]);
      var rest := SplitLf(s[1..]);
      if s[0] == '\n' {
        assert ([""] + rest)[1..] == rest;
      } else {
        assert ([[s[0]] + rest[0]] + rest[1..])[1..] == rest[1..];
      }
    }
  }

  /** Joining loses nothing either. */
  lemma {:induction false} SplitUndoesJoin(lines: seq<string>)
    requires lines != [] && forall i :: 0 <= i < |lines| ==> '\n' !in lines[i]
    ensures SplitLf(JoinLf(lines)) == lines
  {
    if |lines| == 1 {
      SplitLfOneLine(lines[0]);
    } else {
      SplitUndoesJoin(lines[1..]);
      SplitAtFeed(lines[0], JoinLf(lines[1..]));
      assert JoinLf(lines) == lines[0] + ("\n" + JoinLf(lines[1..]));
    }
  }

  /** A line feed at the end stands before an empty last line. */
  lemma {:induction false} JoinWithLast(lines: seq<string>, last: string)
    requires lines != []
    ensures JoinLf(lines + [last]) == JoinLf(lines) + "\n" + last
  {
    var all := lines + [last];
    assert all[1..] == lines[1..] + [last];
    if |lines| > 1 {
      JoinWithLast(lines[1..], last);
      assert JoinLf(all) == lines[0] + "\n" + (JoinLf(lines[1..]) + "\n" + last);
    }
  }

  function Concat(parts: seq<string>): (s: string)
  {
    if parts == [] then "" else parts[0] + Concat(parts[1..])
  }

  lemma Regroup<T>(a: seq<T>, b: seq<T>, c: seq<T>)
    ensures a + (b + c) == a + b + c
  {}

  lemma {:induction false} ConcatAppend(x: seq<string>, y: seq<string>)
    ensures Concat(x + y) == Concat(x) + Concat(y)
  {
    if x == [] {
      assert x + y == y;
    } else {
      ConcatAppend(x[1..], y);
      assert (x + y)[1..] == x[1..] + y;
      Regroup(x[0], Concat(x[1..]), Concat(y));
    }
  }

  /** The text without the characters it starts with that are to go. */
  function TrimStart(goes: char -> bool, s: string): (r: string) {
    if s != "" && goes(s[0]) then TrimStart(goes, s[1..]) else s
  }

  function TrimEnd(goes: char -> bool, s: string): (r: string) {
    if s != "" && goes(s[|s| - 1]) then TrimEnd(goes, s[..|s| - 1]) else s
  }

  /** What goes is trimmed up to the first character that stays, and no further. */
  lemma {:induction false} TrimmedBefore(goes: char -> bool, x: string, y: string)
    requires (forall i :: 0 <= i < |x| ==> goes(x[i])) && (y != "" ==> !goes(y[0]))
    ensures TrimStart(goes, x + y) == y
  {
    if x == "" {
      assert x + y == y;
    } else {
      TrimmedBefore(goes, x[1..], y);
      assert (x + y)[1..] == x[1..] + y;
    }
  }

  lemma {:induction false} TrimmedAfter(goes: char -> bool, x: string, y: string)
    requires (forall i :: 0 <= i < |y| ==> goes(y[i])) && (x != "" ==> !goes(x[|x| - 1]))
    ensures TrimEnd(goes, x + y) == x
  {
    if y == "" {
      assert x + y == x;
    } else {
      var most := y[..|y| - 1];
      TrimmedAfter(goes, x, most);
      assert (x + y)[..|x + y| - 1] == x + most && (x + y)[|x + y| - 1] == y[|y| - 1];
    }
  }
}
