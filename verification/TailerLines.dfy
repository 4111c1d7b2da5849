/** What the tailer returns of lines that were written one by one. */
module TailerLines {
  import opened Basics
  import opened Tailer

  // ----- how far it reads -----

  /** The length of the longest successful read. */
  ghost predicate Longest(polls: seq<Option<string>>, n: nat) {
    && (forall i | 0 <= i < |polls| && polls[i].Some? :: |polls[i].value| <= n)
    && (n == 0 || exists i :: 0 <= i < |polls| && polls[i].Some? && |polls[i].value| == n)
  }

  /** Whatever was read, in whatever order, the position is the length of the longest successful read. */
  lemma {:induction false} ReadsAsFarAsItCan(polls: seq<Option<string>>)
    ensures Longest(polls, ReadAll(polls).1.offset)
  {
    if polls != [] {
      var front, last := polls[..|polls| - 1], polls[|polls| - 1];
      ReadsAsFarAsItCan(front);
      var n, n' := ReadAll(front).1.offset, ReadAll(polls).1.offset;
      forall i | 0 <= i < |polls| && polls[i].Some? ensures |polls[i].value| <= n' {
        assert i < |front| ==> front[i] == polls[i];
      }
      if n' == n != 0 {
        var i :| 0 <= i < |front| && front[i].Some? && |front[i].value| == n;
        assert polls[i] == front[i];
      }
    }
  }

  // ----- trimming -----

  predicate Blank(s: string) {
    forall i | 0 <= i < |s| :: IsSpace(s[i])
  }

  /** Neither begins nor ends with white space. */
  predicate Tight(s: string) {
    s == "" || (!IsSpace(s[0]) && !IsSpace(s[|s| - 1]))
  }

  lemma {:induction false} TrimStartExact(s: string) returns (before: string)
    ensures s == before + TrimStart(s) && Blank(before)
    ensures TrimStart(s) == "" || !IsSpace(TrimStart(s)[0])
  {
    before := "";
    if s != "" && IsSpace(s[0]) {
      var more := TrimStartExact(s[1..]);
      before := [s[0]] + more;
      assert s == [s[0]] + s[1..];
    }
  }

  lemma {:induction false} TrimEndExact(s: string) returns (after: string)
    ensures s == TrimEnd(s) + after && Blank(after)
    ensures TrimEnd(s) == "" || !IsSpace(TrimEnd(s)[|TrimEnd(s)| - 1])
  {
    after := "";
    if s != "" && IsSpace(s[|s| - 1]) {
      var more := TrimEndExact(s[..|s| - 1]);
      after := more + [s[|s| - 1]];
      assert s == s[..|s| - 1] + [s[|s| - 1]];
    }
  }

  /** Trimming takes white space, and all of it, off both ends and nothing else. */
  lemma TrimExact(s: string) returns (before: string, after: string)
    ensures s == before + Trim(s) + after && Blank(before) && Blank(after) && Tight(Trim(s))
  {
    before := TrimStartExact(s);
    after := TrimEndExact(TrimStart(s));
  }

  lemma TightStays(s: string)
    requires Tight(s)
    ensures Trim(s) == s
  {
  }

  // ----- lines -----

  /** The text of finished lines. */
  function Written(lines: seq<string>): string {
    if lines == [] then "" else Written(lines[..|lines| - 1]) + lines[|lines| - 1] + "\n"
  }

  lemma SplitLine(line: string)
    requires '\n' !in line
    ensures Split(line + "\n") == [line, ""]
  {
    assert (line + "\n")[..|line|] == line;
    SplitPlain(line);
  }

  /** Text added to a text whose parts are known. */
  lemma SplitOnward(a: string, parts: seq<string>, rest: string, b: string)
    requires Split(a) == parts + [rest]
    ensures Split(a + b) == parts + Split(rest + b)
  {
    SplitAppend(a, b);
    assert (parts + [rest])[..|parts|] == parts;
  }

  lemma {:induction false} SplitWritten(lines: seq<string>)
    requires Plain(lines)
    ensures Split(Written(lines)) == lines + [""]
  {
    if lines == [] {
      assert Split("") == [""];
    } else {
      SplitWritten(lines[..|lines| - 1]);
      WrittenMore(lines[..|lines| - 1], lines[|lines| - 1], Written(lines[..|lines| - 1]));
      assert lines == lines[..|lines| - 1] + [lines[|lines| - 1]];
    }
  }

  lemma WrittenMore(lines: seq<string>, line: string, text: string)
    requires Split(text) == lines + [""] && '\n' !in line
    ensures Split(text + line + "\n") == lines + [line] + [""]
  {
    SplitOnward(text, lines, "", line + "\n");
    assert text + (line + "\n") == text + line + "\n" && "" + (line + "\n") == line + "\n";
    SplitLine(line);
    assert lines + [line, ""] == lines + [line] + [""];
  }

  lemma SplitUnfinished(lines: seq<string>, rest: string)
    requires Plain(lines) && '\n' !in rest
    ensures Split(Written(lines) + rest) == lines + [rest]
  {
    SplitWritten(lines);
    SplitOnward(Written(lines), lines, "", rest);
    assert "" + rest == rest;
    SplitPlain(rest);
  }

  lemma LinesKnown(text: string, lines: seq<string>, rest: string)
    requires Split(text) == lines + [rest]
    ensures Lines(text) == Clean(lines) && Rest(text) == rest
  {
    assert (lines + [rest])[..|lines|] == lines;
  }

  /** Every successful read saw a beginning of the file. */
  ghost predicate SawOnly(polls: seq<Option<string>>, file: string) {
    forall i | 0 <= i < |polls| && polls[i].Some? :: polls[i].value <= file
  }

  lemma LongestIsAll(file: string, polls: seq<Option<string>>, n: nat)
    requires SawOnly(polls, file) && Some(file) in polls && Longest(polls, n)
    ensures n == |file|
  {
    var k :| 0 <= k < |polls| && polls[k] == Some(file);
    assert |polls[k].value| <= n;
  }

  lemma AtTheEnd(file: string, lines: seq<string>, st: FileReadState)
    requires st.offset == |file| && lines == Lines(file[..st.offset]) && st.lineBuffer == Rest(file[..st.offset])
    ensures lines == Lines(file) && st == FileReadState(|file|, Rest(file))
  {
    assert file[..|file|] == file;
  }

  /** A file that only grows and was once read in full. */
  lemma FullyRead(file: string, polls: seq<Option<string>>)
    requires SawOnly(polls, file) && Some(file) in polls
    ensures ReadAll(polls).0 == Lines(file) && ReadAll(polls).1 == FileReadState(|file|, Rest(file))
  {
    TailingIsSplitting(file, polls);
    var read := ReadAll(polls);
    assert Longest(polls, read.1.offset) by {
      ReadsAsFarAsItCan(polls);
    }
    LongestIsAll(file, polls, read.1.offset);
    AtTheEnd(file, read.0, read.1);
  }

  lemma {:induction false} CleanTight(lines: seq<string>)
    requires forall i | 0 <= i < |lines| :: lines[i] != "" && Tight(lines[i])
    ensures Clean(lines) == lines
  {
    if lines != [] {
      CleanTight(lines[..|lines| - 1]);
      TightStays(lines[|lines| - 1]);
    }
  }

  /** A line of nothing but white space is dropped, any other is kept, trimmed. */
  lemma BlankDropped(lines: seq<string>, line: string)
    ensures Clean(lines + [line]) == if Blank(line) then Clean(lines) else Clean(lines) + [Trim(line)]
  {
    assert (lines + [line])[..|lines|] == lines;
    var before, after := TrimExact(line);
    if Trim(line) == "" {
      assert before + "" + after == before + after;
      assert Clean(lines) + [] == Clean(lines);
    } else {
      assert line[|before|] == Trim(line)[0];
      assert !Blank(line);
    }
  }

  /** A file of finished lines and an unfinished one that only grows: once some read has seen all of it, the reads have
      together returned the finished lines, trimmed, without the blank ones, each once and in order, and the unfinished
      one waits in the buffer. Lines that need no trimming come back as they were written. */
  lemma WrittenLinesRead(lines: seq<string>, rest: string, polls: seq<Option<string>>)
    requires Plain(lines) && '\n' !in rest
    requires SawOnly(polls, Written(lines) + rest) && Some(Written(lines) + rest) in polls
    ensures ReadAll(polls).0 == Clean(lines) && ReadAll(polls).1.lineBuffer == rest
    ensures (forall i | 0 <= i < |lines| :: lines[i] != "" && Tight(lines[i])) ==> ReadAll(polls).0 == lines
  {
    var file := Written(lines) + rest;
    FullyRead(file, polls);
    SplitUnfinished(lines, rest);
    LinesKnown(file, lines, rest);
    if forall i | 0 <= i < |lines| :: lines[i] != "" && Tight(lines[i]) {
      CleanTight(lines);
    }
  }

  /** The white space that is trimmed, by code point. */
  lemma WhiteSpace(c: char)
    ensures IsSpace(c) <==>
            c as int in {9, 10, 11, 12, 13, 0x20, 0x85, 0xA0, 0x1680, 0x2000, 0x2001, 0x2002, 0x2003, 0x2004, 0x2005,
                         0x2006, 0x2007, 0x2008, 0x2009, 0x200A, 0x2028, 0x2029, 0x202F, 0x205F, 0x3000}
  {
  }
}
