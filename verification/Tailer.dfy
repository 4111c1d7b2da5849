/** Incremental reading of an append-only transcript file. */
module Tailer {
  import opened Basics

  /** Unicode White_Space, as `str::trim` uses it. */
  predicate IsSpace(c: char) {
    || '\t' <= c <= '\r' || c == ' ' || c == '\U{0085}' || c == '\U{00A0}' || c == '\U{1680}'
    || '\U{2000}' <= c <= '\U{200A}' || c == '\U{2028}' || c == '\U{2029}' || c == '\U{202F}'
    || c == '\U{205F}' || c == '\U{3000}'
  }

  function TrimStart(s: string): string {
    if s != "" && IsSpace(s[0]) then TrimStart(s[1..]) else s
  }

  function TrimEnd(s: string): string {
    if s != "" && IsSpace(s[|s| - 1]) then TrimEnd(s[..|s| - 1]) else s
  }

  function Trim(s: string): string {
    TrimEnd(TrimStart(s))
  }

  /** `split('\n')`. */
  function Split(text: string): (parts: seq<string>)
    ensures |parts| > 0
  {
    if text == "" then [""] else Grow(Split(text[..|text| - 1]), text[|text| - 1])
  }

  /** One more character: a new part after a newline, else a longer last part. */
  function Grow(parts: seq<string>, c: char): (r: seq<string>)
    requires parts != []
    ensures |r| > 0
  {
    if c == '\n' then parts + [""] else parts[..|parts| - 1] + [parts[|parts| - 1] + [c]]
  }

  lemma GrowBehind(before: seq<string>, parts: seq<string>, c: char)
    requires parts != []
    ensures Grow(before + parts, c) == before + Grow(parts, c)
  {
    assert (before + parts)[..|before + parts| - 1] == before + parts[..|parts| - 1];
  }

  function Join(parts: seq<string>): string {
    if parts == [] then "" else if |parts| == 1 then parts[0]
    else Join(parts[..|parts| - 1]) + "\n" + parts[|parts| - 1]
  }

  lemma JoinGrow(parts: seq<string>, c: char)
    requires parts != []
    ensures Join(Grow(parts, c)) == Join(parts) + [c]
  {
    var grown := Grow(parts, c);
    if c == '\n' {
      assert grown[..|grown| - 1] == parts;
      assert Join(parts) + "\n" + "" == Join(parts) + ['\n'];
    } else if |parts| > 1 {
      assert grown[..|grown| - 1] == parts[..|parts| - 1];
      var before, last := Join(parts[..|parts| - 1]) + "\n", parts[|parts| - 1];
      assert before + (last + [c]) == before + last + [c];
    }
  }

  predicate Plain(parts: seq<string>) {
    forall i | 0 <= i < |parts| :: '\n' !in parts[i]
  }

  lemma GrowPlain(parts: seq<string>, c: char)
    requires parts != [] && Plain(parts)
    ensures Plain(Grow(parts, c))
  {
  }

  lemma SplitSnoc(text: string)
    requires text != ""
    ensures Split(text) == Grow(Split(text[..|text| - 1]), text[|text| - 1])
  {
  }

  lemma {:induction false} SplitIsPlain(text: string)
    ensures Plain(Split(text))
  {
    if text != "" {
      SplitIsPlain(text[..|text| - 1]);
      GrowPlain(Split(text[..|text| - 1]), text[|text| - 1]);
    }
  }

  /** Splitting loses nothing but the newlines it cuts at. */
  lemma {:induction false} SplitJoin(text: string)
    ensures Join(Split(text)) == text
  {
    if text == "" {
      assert Split(text) == [""];
    } else {
      var front, c := text[..|text| - 1], text[|text| - 1];
      SplitJoin(front);
      SplitSnoc(text);
      JoinGrow(Split(front), c);
      assert front + [c] == text;
    }
  }

  function Rest(text: string): string {
    Split(text)[|Split(text)| - 1]
  }

  /** Trimmed, empty ones dropped. */
  function Clean(parts: seq<string>): seq<string> {
    if parts == [] then []
    else
      var t := Trim(parts[|parts| - 1]);
      Clean(parts[..|parts| - 1]) + if t == "" then [] else [t]
  }

  /** The reference: the complete lines of a text, in one go. */
  function Lines(text: string): seq<string> {
    Clean(Split(text)[..|Split(text)| - 1])
  }

  lemma SplitAlone(a: string)
    ensures Split(a) == Split(a)[..|Split(a)| - 1] + Split(Rest(a))
  {
    SplitIsPlain(a);
    SplitPlain(Rest(a));
  }

  lemma {:induction false} SplitAppend(a: string, b: string)
    ensures Split(a + b) == Split(a)[..|Split(a)| - 1] + Split(Rest(a) + b)
  {
    var pa := Split(a);
    if b == "" {
      SplitAlone(a);
      assert a + b == a && Rest(a) + b == Rest(a);
    } else {
      var front, c := b[..|b| - 1], b[|b| - 1];
      SplitAppend(a, front);
      assert (a + b)[..|a + b| - 1] == a + front && (Rest(a) + b)[..|Rest(a) + b| - 1] == Rest(a) + front;
      GrowBehind(pa[..|pa| - 1], Split(Rest(a) + front), c);
    }
  }

  lemma {:induction false} SplitPlain(s: string)
    requires '\n' !in s
    ensures Split(s) == [s]
  {
    if s != "" {
      SplitPlain(s[..|s| - 1]);
      assert s == s[..|s| - 1] + [s[|s| - 1]];
    }
  }

  lemma {:induction false} CleanAppend(a: seq<string>, b: seq<string>)
    ensures Clean(a + b) == Clean(a) + Clean(b)
  {
    if b == [] {
      assert a + b == a;
    } else {
      CleanAppend(a, b[..|b| - 1]);
      assert (a + b)[..|a + b| - 1] == a + b[..|b| - 1];
    }
  }

  /** Cutting the text anywhere and carrying the unfinished line over gives the same lines and the same rest. */
  lemma LinesAppend(a: string, b: string)
    ensures Lines(a + b) == Lines(a) + Lines(Rest(a) + b)
    ensures Rest(a + b) == Rest(Rest(a) + b)
  {
    SplitAppend(a, b);
    var pa, tail := Split(a), Split(Rest(a) + b);
    assert Split(a + b)[..|Split(a + b)| - 1] == pa[..|pa| - 1] + tail[..|tail| - 1];
    CleanAppend(pa[..|pa| - 1], tail[..|tail| - 1]);
  }

  // ----- the reader -----

  datatype FileReadState = FileReadState(offset: nat, lineBuffer: string)

  /** What one read does; `content` is None when any file operation fails. */
  function ReadStep(st: FileReadState, content: Option<string>): (seq<string>, FileReadState) {
    if content.None? || |content.value| <= st.offset then ([], st)
    else
      var text := st.lineBuffer + content.value[st.offset..];
      (Lines(text), FileReadState(|content.value|, Rest(text)))
  }

  method ReadNewLines(content: Option<string>, st: FileReadState) returns (lines: seq<string>, st': FileReadState)
    ensures (lines, st') == ReadStep(st, content)
  {
    lines, st' := [], st;
    if content.None? || |content.value| <= st.offset {
      return;
    }
    var text := st.lineBuffer + content.value[st.offset..];
    var parts := Split(text);
    st' := FileReadState(|content.value|, parts[|parts| - 1]);
    parts := parts[..|parts| - 1];
    for i := 0 to |parts|
      invariant lines == Clean(parts[..i])
    {
      assert parts[..i + 1][..i] == parts[..i];
      var trimmed := Trim(parts[i]);
      if trimmed != "" {
        lines := lines + [trimmed];
      }
    }
    assert parts[..|parts|] == parts;
  }

  /** All lines returned by a schedule of reads, and the state it ends in. */
  function ReadAll(polls: seq<Option<string>>): (seq<string>, FileReadState) {
    if polls == [] then ([], FileReadState(0, ""))
    else
      var (lines, st) := ReadAll(polls[..|polls| - 1]);
      var (more, st') := ReadStep(st, polls[|polls| - 1]);
      (lines + more, st')
  }

  /** For every file that only grows, and every schedule of reads (polls, notifications, failed ones, stale ones),
      the lines returned so far are exactly the complete lines of the consumed text, each once and in order, and
      the buffer is the unfinished rest. `file` is the text the file grows into. */
  lemma {:induction false} TailingIsSplitting(file: string, polls: seq<Option<string>>)
    requires forall i | 0 <= i < |polls| && polls[i].Some? :: polls[i].value <= file
    ensures var (lines, st) := ReadAll(polls);
            && st.offset <= |file|
            && lines == Lines(file[..st.offset])
            && st.lineBuffer == Rest(file[..st.offset])
  {
    if polls != [] {
      var front, last := polls[..|polls| - 1], polls[|polls| - 1];
      TailingIsSplitting(file, front);
      var (lines, st) := ReadAll(front);
      if last.Some? && |last.value| > st.offset {
        assert last in polls;
        var chunk := last.value[st.offset..];
        assert file[..|last.value|] == last.value;
        assert file[..|last.value|] == file[..st.offset] + chunk;
        LinesAppend(file[..st.offset], chunk);
      } else {
        assert lines + [] == lines;
      }
    }
  }
}
