/** Line ranges of normalized text: the line index and the regions it cuts out. */
module SourceLines {
  import opened Wrappers
  import opened Strings

  // ---------------------------------------------------------------- lines

  /** CRLF becomes LF. */
  function Unixed(data: string): string
  {
    if |data| >= 2 && data[0] == '\r' && data[1] == '\n' then ['\n'] + Unixed(data[2..])
    else if data == "" then ""
    else [data[0]] + Unixed(data[1..])
  }

  /** The text that is addressed: LF line ends, without the final one. */
  function Normalized(data: string): string
  {
    var text := Unixed(data);
    if text != "" && text[|text| - 1] == '\n' then text[..|text| - 1] else text
  }

  /** The lines of a text; a text without line ends is one line. */
  function Lines(text: string): (r: seq<string>)
    ensures r != []
  {
    if text == "" then [""]
    else
      var rest := Lines(text[1..]);
      if text[0] == '\n' then [""] + rest else [[text[0]] + rest[0]] + rest[1..]
  }

  lemma {:induction false} LinesJoin(text: string)
    ensures Join(Lines(text), "\n") == text && forall l | l in Lines(text) :: '\n' !in l
  {
    if text != "" {
      LinesJoin(text[1..]);
      var rest := Lines(text[1..]);
      if text[0] == '\n' {
        assert ([""] + rest)[1..] == rest;
      } else {
        var first := [text[0]] + rest[0];
        assert ([first] + rest[1..])[1..] == rest[1..];
      }
      assert text == [text[0]] + text[1..];
    }
  }

  /** Where line `k` starts when every line is followed by a line end. */
  function Offset(lines: seq<string>, k: nat): nat
    requires k <= |lines|
  {
    if k == 0 then 0 else Offset(lines, k - 1) + |lines[k - 1]| + 1
  }

  lemma {:induction false} OffsetShift(lines: seq<string>, k: nat)
    requires 0 < k <= |lines|
    ensures Offset(lines, k) == |lines[0]| + 1 + Offset(lines[1..], k - 1)
  {
    if k > 1 {
      OffsetShift(lines, k - 1);
    }
  }

  lemma {:induction false} OffsetGrows(lines: seq<string>, a: nat, b: nat)
    requires a <= b <= |lines|
    ensures Offset(lines, a) + (b - a) <= Offset(lines, b)
    decreases b
  {
    if a < b {
      OffsetGrows(lines, a, b - 1);
    }
  }

  lemma {:induction false} JoinLength(lines: seq<string>)
    requires lines != []
    ensures |Join(lines, "\n")| == Offset(lines, |lines|) - 1
  {
    if |lines| > 1 {
      JoinLength(lines[1..]);
      OffsetShift(lines, |lines|);
    } else {
      assert Offset(lines, 1) == Offset(lines, 0) + |lines[0]| + 1;
    }
  }

  lemma {:induction false} JoinPrefix(lines: seq<string>, b: nat)
    requires 0 < b < |lines|
    ensures Join(lines, "\n") == Join(lines[..b], "\n") + "\n" + Join(lines[b..], "\n")
    ensures |Join(lines[..b], "\n")| == Offset(lines, b) - 1
    decreases b
  {
    if b > 1 {
      JoinPrefix(lines[1..], b - 1);
      assert lines[1..][..b - 1] == lines[1..b] == lines[..b][1..];
      assert lines[1..][b - 1..] == lines[b..];
      OffsetShift(lines, b);
    } else {
      assert Offset(lines, 1) == Offset(lines, 0) + |lines[0]| + 1;
    }
  }

  lemma {:induction false} OffsetSuffix(lines: seq<string>, a: nat, b: nat)
    requires a <= b <= |lines|
    ensures Offset(lines[a..], b - a) == Offset(lines, b) - Offset(lines, a)
    decreases b
  {
    if a < b {
      OffsetSuffix(lines, a, b - 1);
    }
  }

  /** The text from a line start on is that line and those after it. */
  lemma JoinTail(lines: seq<string>, a: nat)
    requires a < |lines|
    ensures Offset(lines, a) <= |Join(lines, "\n")|
    ensures Join(lines, "\n")[Offset(lines, a)..] == Join(lines[a..], "\n")
  {
    if a > 0 {
      JoinPrefix(lines, a);
    }
  }

  /** The text up to a line's end is that line and those before it. */
  lemma JoinHead(lines: seq<string>, b: nat)
    requires 0 < b <= |lines|
    ensures 0 < Offset(lines, b) <= |Join(lines, "\n")| + 1
    ensures Join(lines, "\n")[..Offset(lines, b) - 1] == Join(lines[..b], "\n")
  {
    JoinLength(lines);
    if b < |lines| {
      JoinPrefix(lines, b);
    } else {
      assert lines[..b] == lines;
    }
  }

  /** A run of lines is one slice of the text. */
  lemma JoinSlice(lines: seq<string>, a: nat, b: nat)
    requires a < b <= |lines|
    ensures Offset(lines, a) <= Offset(lines, b) - 1 <= |Join(lines, "\n")|
    ensures Join(lines, "\n")[Offset(lines, a)..Offset(lines, b) - 1] == Join(lines[a..b], "\n")
  {
    hide Join, Offset;
    JoinTail(lines, a);
    JoinHead(lines[a..], b - a);
    OffsetSuffix(lines, a, b);
    assert lines[a..][..b - a] == lines[a..b];
  }

  // ---------------------------------------------------------------- the line index

  datatype LineIndex = LineIndex(data: string, starts: seq<nat>)

  /** The index addresses exactly the given lines. */
  ghost predicate Indexes(ix: LineIndex, lines: seq<string>)
  {
    lines != [] && ix.data == Join(lines, "\n") && |ix.starts| == |lines| &&
    forall k | 0 <= k < |lines| :: ix.starts[k] == Offset(lines, k)
  }

  function Region(ix: LineIndex, lineStart: int, lineEnd: int): Option<string>
  {
    if lineStart < 1 || lineEnd < lineStart || lineEnd > |ix.starts| then None
    else
      var stop := if lineEnd < |ix.starts| then ix.starts[lineEnd] - 1 else |ix.data|;
      if 0 <= ix.starts[lineStart - 1] <= stop <= |ix.data| then Some(ix.data[ix.starts[lineStart - 1]..stop]) else None
  }

  /** A region is its lines, joined; a range outside the file has none. */
  lemma RegionIsLines(ix: LineIndex, lines: seq<string>, lineStart: int, lineEnd: int)
    requires Indexes(ix, lines)
    ensures Region(ix, lineStart, lineEnd) ==
      if 1 <= lineStart <= lineEnd <= |lines| then Some(Join(lines[lineStart - 1..lineEnd], "\n")) else None
  {
    if 1 <= lineStart <= lineEnd <= |lines| {
      JoinSlice(lines, lineStart - 1, lineEnd);
      JoinLength(lines);
    }
  }

  /** The index of a file's normalized text. */
  function IndexOf(data: string): (ix: LineIndex)
    ensures Indexes(ix, Lines(Normalized(data)))
  {
    var lines := Lines(Normalized(data));
    LinesJoin(Normalized(data));
    LineIndex(Normalized(data), seq(|lines|, k requires 0 <= k < |lines| => Offset(lines, k)))
  }

  lemma IndexIsUnique(a: LineIndex, b: LineIndex, lines: seq<string>)
    requires Indexes(a, lines) && Indexes(b, lines)
    ensures a == b
  {
    hide Join, Offset;
    assert a.starts == b.starts;
  }

  /** The first line end at or after `from`, or the length of the text. */
  function NextBreak(text: string, from: nat): (k: nat)
    requires from <= |text|
    ensures from <= k <= |text| && (k < |text| ==> text[k] == '\n')
    ensures forall i | from <= i < k :: text[i] != '\n'
    decreases |text| - from
  {
    if from == |text| || text[from] == '\n' then from else NextBreak(text, from + 1)
  }

  /** Finds every line start. */
  method IndexLines(data: string) returns (ix: LineIndex)
    ensures Indexes(ix, Lines(Normalized(data))) && ix == IndexOf(data)
  {
    var text := Normalized(data);
    ghost var lines := Lines(text);
    LinesJoin(text);
    assert Offset(lines, 0) == 0;
    hide Lines, Join, Unixed, NextBreak, Offset, IndexOf;
    var starts: seq<nat> := [0];
    var offset := 0;
    while true
      invariant 1 <= |starts| <= |lines| && offset == Offset(lines, |starts| - 1) <= |text|
      invariant forall k | 0 <= k < |starts| :: starts[k] == Offset(lines, k)
      decreases |text| - offset
    {
      var next := NextBreak(text, offset);
      NextBreakIsLineEnd(lines, |starts| - 1, text, next);
      if next == |text| {
        break;
      }
      offset := next + 1;
      starts := starts + [offset];
    }
    ix := LineIndex(text, starts);
    IndexIsUnique(ix, IndexOf(data), lines);
  }

  /** The line end found from a line start ends that line. */
  lemma NextBreakIsLineEnd(lines: seq<string>, k: nat, text: string, next: nat)
    requires lines != [] && text == Join(lines, "\n") && forall l | l in lines :: '\n' !in l
    requires k < |lines| && Offset(lines, k) <= next <= |text| && next == NextBreak(text, Offset(lines, k))
    ensures next == Offset(lines, k) + |lines[k]|
    ensures next == |text| <==> k == |lines| - 1
    ensures Offset(lines, k + 1) == next + 1
  {
    var from := Offset(lines, k);
    assert Offset(lines, k + 1) == from + |lines[k]| + 1;
    assert Join([lines[k]], "\n") == lines[k];
    hide Join, Offset, NextBreak;
    JoinSlice(lines, k, k + 1);
    JoinLength(lines);
    assert lines[k..k + 1] == [lines[k]];
    var stop := from + |lines[k]|;
    assert text[from..stop] == lines[k];
    forall i | from <= i < stop ensures text[i] != '\n' {
      assert text[i] == lines[k][i - from];
      assert lines[k][i - from] in lines[k];
    }
    if k < |lines| - 1 {
      JoinPrefix(lines, k + 1);
      assert text[stop] == '\n';
    }
  }
}
