/** The output stream of a client process: bytes arrive in arbitrary pieces on two channels, lines are decoded as
    they become complete, and budgets are watched. */
module Stream {
  import opened Wrappers
  import opened Strings
  import opened SourceLines
  import opened StreamEvents

  /** A bound that is not positive is no bound. */
  datatype Config = Config(maxOutputBytes: int, maxModelTokens: int, maxToolCalls: int, maxSubagents: int)

  datatype Limit = OutputLimit | TokenLimit | ToolLimit | SubagentLimit | Other(reason: string)

  /** One byte and the channel it came on. */
  datatype Tagged = Tagged(out: bool, byte: char)

  function Tag(data: string, out: bool): seq<Tagged>
  {
    seq(|data|, i requires 0 <= i < |data| => Tagged(out, data[i]))
  }

  /** What happens to a stream: output on one of its channels, or a limit from outside. */
  datatype Input = Output(data: string, out: bool) | Interrupted(reason: string)

  /** What was written, byte by byte, whatever the writes were. */
  function Bytes(inputs: seq<Input>): seq<Tagged>
  {
    if inputs == [] then []
    else
      var before := Bytes(inputs[..|inputs| - 1]);
      match inputs[|inputs| - 1]
      case Output(data, out) => before + Tag(data, out)
      case Interrupted(_) => before
  }

  /** The bytes that are kept: a prefix of those written, of at most the cap. */
  function Kept(cfg: Config, bytes: seq<Tagged>): (r: seq<Tagged>)
    ensures r <= bytes && |r| == if 0 < cfg.maxOutputBytes < |bytes| then cfg.maxOutputBytes else |bytes|
  {
    if 0 < cfg.maxOutputBytes < |bytes| then bytes[..cfg.maxOutputBytes] else bytes
  }

  /** The bytes of one channel. */
  function Select(bytes: seq<Tagged>, out: bool): string
  {
    if bytes == [] then ""
    else Select(bytes[..|bytes| - 1], out) + if bytes[|bytes| - 1].out == out then [bytes[|bytes| - 1].byte] else ""
  }

  lemma {:induction false} SelectAppend(a: seq<Tagged>, b: seq<Tagged>, out: bool)
    ensures Select(a + b, out) == Select(a, out) + Select(b, out)
    decreases |b|
  {
    if b == [] {
      assert a + b == a;
    } else {
      var front := b[..|b| - 1];
      assert (a + b)[..|a + b| - 1] == a + front;
      SelectAppend(a, front, out);
    }
  }

  lemma {:induction false} SelectTag(data: string, tag: bool, out: bool)
    ensures Select(Tag(data, tag), out) == if tag == out then data else ""
    decreases |data|
  {
    if data != "" {
      var front := data[..|data| - 1];
      assert Tag(data, tag)[..|data| - 1] == Tag(front, tag);
      SelectTag(front, tag, out);
      assert data == front + [data[|data| - 1]];
    }
  }

  /** The two channels share the kept bytes between them. */
  lemma {:induction false} ChannelsShareBytes(bytes: seq<Tagged>)
    ensures |Select(bytes, true)| + |Select(bytes, false)| == |bytes|
  {
    if bytes != [] {
      ChannelsShareBytes(bytes[..|bytes| - 1]);
    }
  }

  /** What is kept of a channel is a prefix of what was written on it. */
  lemma KeptIsPrefix(cfg: Config, bytes: seq<Tagged>, out: bool)
    ensures Select(Kept(cfg, bytes), out) <= Select(bytes, out)
  {
    var kept := Kept(cfg, bytes);
    SelectAppend(kept, bytes[|kept|..], out);
    assert bytes == kept + bytes[|kept|..];
  }

  // ---------------------------------------------------------------- lines

  function Complete(text: string): seq<string>
  {
    Lines(text)[..|Lines(text)| - 1]
  }

  function Leftover(text: string): string
  {
    Lines(text)[|Lines(text)| - 1]
  }

  function HandleLine(f: Format, c: Counters, line: string): Counters
  {
    match f.parse(line)
    case Some(event) => Collect(f, c, event)
    case None => c
  }

  function HandleAll(f: Format, c: Counters, lines: seq<string>): Counters
    decreases |lines|
  {
    if lines == [] then c else HandleAll(f, HandleLine(f, c, lines[0]), lines[1..])
  }

  /** The counters after the complete lines of a text. */
  function CountersOf(f: Format, text: string): Counters
  {
    HandleAll(f, ZERO, Complete(text))
  }

  /** The counters once the text has ended. */
  function FinalCounters(f: Format, text: string): Counters
  {
    if Leftover(text) == "" then CountersOf(f, text) else HandleLine(f, CountersOf(f, text), Leftover(text))
  }

  lemma {:induction false} HandleAllAppend(f: Format, c: Counters, a: seq<string>, b: seq<string>)
    ensures HandleAll(f, c, a + b) == HandleAll(f, HandleAll(f, c, a), b)
    decreases |a|
  {
    hide HandleLine;
    if a == [] {
      assert a + b == b;
    } else {
      assert (a + b)[1..] == a[1..] + b;
      HandleAllAppend(f, HandleLine(f, c, a[0]), a[1..], b);
    }
  }

  /** The lines of a text one byte longer at the front. */
  function Attach(c: char, lines: seq<string>): (r: seq<string>)
    requires lines != []
    ensures r != []
  {
    if c == '\n' then [""] + lines else [[c] + lines[0]] + lines[1..]
  }

  lemma LinesUnfold(text: string)
    requires text != ""
    ensures Lines(text) == Attach(text[0], Lines(text[1..]))
  {}

  lemma AttachAppend(c: char, lines: seq<string>, more: seq<string>)
    requires lines != [] && more != [] && (c == '\n' || |lines| > 1)
    ensures Attach(c, lines[..|lines| - 1] + more) == Attach(c, lines)[..|Attach(c, lines)| - 1] + more
    ensures Attach(c, lines)[|Attach(c, lines)| - 1] == lines[|lines| - 1]
  {
    if c != '\n' {
      assert (lines[..|lines| - 1] + more)[1..] == lines[1..|lines| - 1] + more;
    }
  }

  /** The lines of a longer text: those complete before, then those of the leftover and what was added. */
  lemma {:induction false} LinesAppend(text: string, more: string)
    ensures Lines(text + more) == Complete(text) + Lines(Leftover(text) + more)
    decreases |text|
  {
    if text == "" {
      assert text + more == more;
    } else {
      hide Lines, Attach, Complete, Leftover;
      LinesAppend(text[1..], more);
      assert (text + more)[1..] == text[1..] + more;
      LinesUnfold(text + more);
      if text[0] == '\n' || |Lines(text[1..])| > 1 {
        AppendInLaterLine(text, more);
      } else {
        AppendInFirstLine(text, more);
      }
    }
  }

  lemma AppendInLaterLine(text: string, more: string)
    requires text != "" && (text[0] == '\n' || |Lines(text[1..])| > 1)
    ensures Attach(text[0], Complete(text[1..]) + Lines(Leftover(text[1..]) + more)) ==
      Complete(text) + Lines(Leftover(text) + more)
  {
    hide Lines, Attach;
    LinesUnfold(text);
    AttachAppend(text[0], Lines(text[1..]), Lines(Leftover(text[1..]) + more));
  }

  lemma AppendInFirstLine(text: string, more: string)
    requires text != "" && text[0] != '\n' && |Lines(text[1..])| == 1
    ensures Attach(text[0], Complete(text[1..]) + Lines(Leftover(text[1..]) + more)) ==
      Complete(text) + Lines(Leftover(text) + more)
  {
    var last := Leftover(text[1..]) + more;
    var whole := [text[0]] + last;
    hide Lines;
    LinesUnfold(text);
    LinesUnfold(whole);
    assert whole[1..] == last && Leftover(text) + more == whole;
    assert [] + Lines(last) == Lines(last) && [] + Lines(whole) == Lines(whole);
  }

  /** A text with a line end splits at the first one. */
  lemma {:induction false} LinesSplit(text: string, index: nat)
    requires index < |text| && text[index] == '\n' && forall i | 0 <= i < index :: text[i] != '\n'
    ensures Lines(text) == [text[..index]] + Lines(text[index + 1..])
    decreases index
  {
    if index > 0 {
      LinesSplit(text[1..], index - 1);
      assert text[1..][index..] == text[index + 1..];
      assert text[..index] == [text[0]] + text[1..][..index - 1];
    }
  }

  lemma {:induction false} LinesOfPlain(text: string)
    requires '\n' !in text
    ensures Lines(text) == [text]
  {
    if text != "" {
      LinesOfPlain(text[1..]);
      assert text == [text[0]] + text[1..];
    }
  }

  // ---------------------------------------------------------------- budgets

  /** The budget is used up. */
  predicate Exceeds(cfg: Config, total: int, c: Counters, limit: Limit)
  {
    match limit
    case OutputLimit => 0 < cfg.maxOutputBytes < total
    case TokenLimit => 0 < cfg.maxModelTokens < c.modelTokens
    case ToolLimit => 0 < cfg.maxToolCalls < c.toolCalls
    case SubagentLimit => 0 < cfg.maxSubagents < c.subagents
    case Other(_) => false
  }

  predicate Over(cfg: Config, total: int, c: Counters)
  {
    Exceeds(cfg, total, c, OutputLimit) || Exceeds(cfg, total, c, TokenLimit) ||
    Exceeds(cfg, total, c, ToolLimit) || Exceeds(cfg, total, c, SubagentLimit)
  }

  /** The first used-up budget in the order they are looked at. */
  function FirstLimit(cfg: Config, total: int, c: Counters): (r: Option<Limit>)
    ensures r.Some? <==> Over(cfg, total, c)
    ensures r.Some? ==> Exceeds(cfg, total, c, r.value)
  {
    if Exceeds(cfg, total, c, OutputLimit) then Some(OutputLimit) else FirstCount(cfg, c)
  }

  function FirstCount(cfg: Config, c: Counters): Option<Limit>
  {
    if Exceeds(cfg, 0, c, TokenLimit) then Some(TokenLimit)
    else if Exceeds(cfg, 0, c, ToolLimit) then Some(ToolLimit)
    else if Exceeds(cfg, 0, c, SubagentLimit) then Some(SubagentLimit)
    else None
  }

  // ---------------------------------------------------------------- the objects of a stream

  function LineObjects(f: Format, line: string): seq<Fields>
  {
    match f.parse(line)
    case Some(event) => Objects(event)
    case None => []
  }

  function AllObjects(f: Format, lines: seq<string>): seq<Fields>
  {
    if lines == [] then [] else LineObjects(f, lines[0]) + AllObjects(f, lines[1..])
  }

  /** The objects of the complete lines of a text. */
  function TextObjects(f: Format, text: string): seq<Fields>
  {
    AllObjects(f, Complete(text))
  }

  /** The objects of all its lines, the unterminated last one included. */
  function StreamObjects(f: Format, text: string): seq<Fields>
  {
    TextObjects(f, text) + if Leftover(text) == "" then [] else LineObjects(f, Leftover(text))
  }

  lemma LineNotes(f: Format, c: Counters, line: string)
    ensures HandleLine(f, c, line) == NoteAll(f, c, LineObjects(f, line))
  {
    hide NoteAll, Collect, Objects;
    match f.parse(line)
    case Some(event) => CollectNotes(f, c, event);
    case None => NothingNoted(f, c);
  }

  lemma NothingNoted(f: Format, c: Counters)
    ensures NoteAll(f, c, []) == c
  {}

  lemma {:induction false} LinesNote(f: Format, c: Counters, lines: seq<string>)
    ensures HandleAll(f, c, lines) == NoteAll(f, c, AllObjects(f, lines))
    decreases |lines|
  {
    hide HandleLine, LineObjects, NoteAll;
    if lines == [] {
      NothingNoted(f, c);
    } else {
      LineNotes(f, c, lines[0]);
      LinesNote(f, HandleLine(f, c, lines[0]), lines[1..]);
      NoteAllAppend(f, c, LineObjects(f, lines[0]), AllObjects(f, lines[1..]));
    }
  }

  /** What a stream counts is what its objects count one after the other. */
  lemma StreamNotes(f: Format, text: string)
    ensures CountersOf(f, text) == NoteAll(f, ZERO, TextObjects(f, text))
    ensures FinalCounters(f, text) == NoteAll(f, ZERO, StreamObjects(f, text))
  {
    hide HandleLine, HandleAll, LineObjects, AllObjects, Complete, Leftover, NoteAll;
    LinesNote(f, ZERO, Complete(text));
    if Leftover(text) == "" {
      assert TextObjects(f, text) + [] == TextObjects(f, text);
    } else {
      LineNotes(f, CountersOf(f, text), Leftover(text));
      NoteAllAppend(f, ZERO, TextObjects(f, text), LineObjects(f, Leftover(text)));
    }
  }

  lemma {:induction false} AllObjectsAppend(f: Format, a: seq<string>, b: seq<string>)
    ensures AllObjects(f, a + b) == AllObjects(f, a) + AllObjects(f, b)
  {
    hide LineObjects;
    if a == [] {
      assert a + b == b;
    } else {
      assert (a + b)[1..] == a[1..] + b;
      AllObjectsAppend(f, a[1..], b);
      assert LineObjects(f, a[0]) + AllObjects(f, a[1..]) + AllObjects(f, b) ==
        LineObjects(f, a[0]) + (AllObjects(f, a[1..]) + AllObjects(f, b));
    }
  }

  /** More text brings more objects behind those there. */
  lemma TextObjectsAppend(f: Format, text: string, more: string)
    ensures TextObjects(f, text + more) == TextObjects(f, text) + AllObjects(f, Complete(Leftover(text) + more))
  {
    hide Lines, AllObjects;
    LinesAppend(text, more);
    assert Complete(text + more) == Complete(text) + Complete(Leftover(text) + more);
    AllObjectsAppend(f, Complete(text), Complete(Leftover(text) + more));
  }

  /** The budget was used up at some point of the series. */
  ghost predicate Reached(cfg: Config, f: Format, total: int, objects: seq<Fields>, limit: Limit)
  {
    exists n: nat :: n <= |objects| && Exceeds(cfg, total, NoteAll(f, ZERO, objects[..n]), limit)
  }

  lemma ReachedNow(cfg: Config, f: Format, total: int, objects: seq<Fields>, limit: Limit)
    requires Exceeds(cfg, total, NoteAll(f, ZERO, objects), limit)
    ensures Reached(cfg, f, total, objects, limit)
  {
    assert objects[..|objects|] == objects;
  }

  lemma ReachedStays(cfg: Config, f: Format, total: int, objects: seq<Fields>, more: int, rest: seq<Fields>,
    limit: Limit)
    requires Reached(cfg, f, total, objects, limit) && total <= more
    ensures Reached(cfg, f, more, objects + rest, limit)
  {
    hide NoteAll;
    var n: nat :| n <= |objects| && Exceeds(cfg, total, NoteAll(f, ZERO, objects[..n]), limit);
    assert (objects + rest)[..n] == objects[..n];
    assert Exceeds(cfg, more, NoteAll(f, ZERO, (objects + rest)[..n]), limit);
  }

  /** A budget once used up stays used up: always, but for the tokens, and for them when no object lowers the total. */
  lemma ReachedHolds(cfg: Config, f: Format, total: int, objects: seq<Fields>, limit: Limit)
    requires Reached(cfg, f, total, objects, limit)
    requires limit.TokenLimit? ==> forall j | 0 <= j < |objects| :: !Lowers(f, objects, j)
    ensures Exceeds(cfg, total, NoteAll(f, ZERO, objects), limit)
  {
    hide NoteAll, Lowers, Sound;
    var n: nat :| n <= |objects| && Exceeds(cfg, total, NoteAll(f, ZERO, objects[..n]), limit);
    assert objects[..n] + objects[n..] == objects && objects[..|objects|] == objects;
    NoteAllAppend(f, ZERO, objects[..n], objects[n..]);
    NotesFollow(f, NoteAll(f, ZERO, objects[..n]), objects[n..]);
    if limit.TokenLimit? {
      TotalStays(f, objects, n, |objects|);
    }
  }

  /** Appending text appends to what was handled. */
  lemma CountersAppend(f: Format, text: string, more: string)
    ensures CountersOf(f, text + more) == HandleAll(f, CountersOf(f, text), Complete(Leftover(text) + more))
    ensures Leftover(text + more) == Leftover(Leftover(text) + more)
  {
    hide Lines, HandleAll;
    LinesAppend(text, more);
    assert Complete(text + more) == Complete(text) + Complete(Leftover(text) + more);
    HandleAllAppend(f, ZERO, Complete(text), Complete(Leftover(text) + more));
  }

  lemma HandleAllOne(f: Format, c: Counters, lines: seq<string>, line: string)
    ensures HandleAll(f, c, lines + [line]) == HandleLine(f, HandleAll(f, c, lines), line)
  {
    hide HandleLine;
    HandleAllAppend(f, c, lines, [line]);
    var d := HandleAll(f, c, lines);
    assert HandleAll(f, d, [line]) == HandleAll(f, HandleLine(f, d, line), []);
  }

  /** Of a write, the part is kept that still fits under the cap. */
  lemma KeepsPart(cfg: Config, written: seq<Tagged>, data: string, out: bool, keep: nat)
    requires keep <= |data|
    requires keep == if cfg.maxOutputBytes <= 0 || |written| + |data| <= cfg.maxOutputBytes then |data|
                     else if |written| >= cfg.maxOutputBytes then 0 else cfg.maxOutputBytes - |written|
    ensures forall channel ::
      Select(Kept(cfg, written + Tag(data, out)), channel) ==
        Select(Kept(cfg, written), channel) + if out == channel then data[..keep] else ""
  {
    assert Kept(cfg, written + Tag(data, out)) == Kept(cfg, written) + Tag(data[..keep], out);
    forall channel
      ensures Select(Kept(cfg, written + Tag(data, out)), channel) ==
        Select(Kept(cfg, written), channel) + if out == channel then data[..keep] else ""
    {
      SelectAppend(Kept(cfg, written), Tag(data[..keep], out), channel);
      SelectTag(data[..keep], out, channel);
    }
  }

  // ---------------------------------------------------------------- the stream as it runs

  datatype Result = Result(stdout: string, stderr: string, counters: Counters, limit: Option<Limit>)

  class StreamState {
    const cfg: Config
    const f: Format
    var stdout: string
    var stderr: string
    var stdoutLine: string
    var counters: Counters
    var totalBytes: nat
    var limit: Option<Limit>
    var exceeded: bool
    ghost var written: seq<Tagged>

    /** The state is a function of the bytes written, not of the writes they came in: what is kept, what has been
        counted and what is left over. */
    ghost predicate Tracks()
      reads `stdout, `stderr, `stdoutLine, `counters, `totalBytes, `written
    {
      totalBytes == |written| && stdout == Select(Kept(cfg, written), true) &&
        stderr == Select(Kept(cfg, written), false) &&
      stdoutLine == Leftover(stdout) && counters == CountersOf(f, stdout)
    }

    /** A limit is set when a budget is used up, and names one that was. */
    ghost predicate Limited()
      reads this
    {
      (limit.None? ==> !Over(cfg, totalBytes, counters)) &&
      (limit.Some? && !limit.value.Other? ==> Reached(cfg, f, totalBytes, TextObjects(f, stdout), limit.value))
    }

    ghost predicate Valid()
      reads this
    {
      Tracks() && Limited()
    }

    constructor (cfg: Config, f: Format)
      ensures Valid() && this.cfg == cfg && this.f == f && written == [] && limit == None && !exceeded
    {
      this.cfg, this.f := cfg, f;
      stdout, stderr, stdoutLine, counters := "", "", "", ZERO;
      totalBytes, limit, exceeded, written := 0, None, false, [];
    }

    /** Takes one piece of output from either channel. */
    method Add(data: string, out: bool)
      requires Valid()
      modifies this
      ensures Valid() && written == old(written) + Tag(data, out)
      ensures limit == if old(limit).Some? then old(limit) else FirstLimit(cfg, totalBytes, counters)
      ensures exceeded == (old(exceeded) || limit.Some? || Exceeds(cfg, totalBytes, counters, OutputLimit))
    {
      ghost var objects := TextObjects(f, stdout);
      ghost var more := Keep(data, out);
      StreamNotes(f, stdout);
      assert counters == NoteAll(f, ZERO, TextObjects(f, stdout));
      LimitStays(cfg, f, old(totalBytes), objects, totalBytes, more, limit);
      hide *;
      Watch();
    }

    /** Sets the limit when a budget is used up. */
    method Watch()
      modifies this`limit, this`exceeded
      ensures limit == if old(limit).Some? then old(limit) else FirstLimit(cfg, totalBytes, counters)
      ensures exceeded == (old(exceeded) || limit.Some? || Exceeds(cfg, totalBytes, counters, OutputLimit))
    {
      var overflow := cfg.maxOutputBytes > 0 && totalBytes > cfg.maxOutputBytes;
      if overflow && limit.None? {
        limit := Some(OutputLimit);
      }
      var found := CheckBudgets();
      if overflow || found.Some? {
        exceeded := true;
      }
    }

    /** Keeps the part of a write that fits under the cap, and counts all of it. */
    method Keep(data: string, out: bool) returns (ghost more: seq<Fields>)
      requires Tracks()
      modifies this`stdout, this`stderr, this`stdoutLine, this`counters, this`totalBytes, this`written
      ensures Tracks() && written == old(written) + Tag(data, out) && totalBytes == old(totalBytes) + |data|
      ensures TextObjects(f, stdout) == old(TextObjects(f, stdout)) + more
    {
      var keep := |data|;
      if cfg.maxOutputBytes > 0 {
        var available := cfg.maxOutputBytes - totalBytes;
        if available < 0 {
          available := 0;
        }
        if keep > available {
          keep := available;
        }
      }
      KeepsPart(cfg, written, data, out, keep);
      TagLength(data, out);
      hide Select, Kept, Tag, CountersOf, Leftover, Complete, HandleAll, AllObjects, TextObjects;
      more := [];
      if keep > 0 {
        var chunk := data[..keep];
        if out {
          CountersAppend(f, stdout, chunk);
          TextObjectsAppend(f, stdout, chunk);
          stdout := stdout + chunk;
          stdoutLine := stdoutLine + chunk;
          more := AllObjects(f, Complete(stdoutLine));
          ParseLines();
        } else {
          stderr := stderr + chunk;
        }
      }
      totalBytes := totalBytes + |data|;
      written := written + Tag(data, out);
    }

    /** Handles the complete lines at the front of the line buffer. */
    method ParseLines()
      modifies this`stdoutLine, this`counters
      ensures stdoutLine == Leftover(old(stdoutLine))
      ensures counters == HandleAll(f, old(counters), Complete(old(stdoutLine)))
    {
      ghost var handled: seq<string> := [];
      while true
        invariant Lines(old(stdoutLine)) == handled + Lines(stdoutLine)
        invariant counters == HandleAll(f, old(counters), handled)
        decreases |stdoutLine|
      {
        hide Lines, HandleAll, NextBreak, Complete, Leftover, Collect;
        var index := NextBreak(stdoutLine, 0);
        if index == |stdoutLine| {
          LinesOfPlain(stdoutLine);
          LastLine(old(stdoutLine), handled, stdoutLine);
          return;
        }
        TakeLine(old(stdoutLine), handled, stdoutLine, index);
        var line := stdoutLine[..index];
        HandleAllOne(f, old(counters), handled, line);
        handled := handled + [line];
        stdoutLine := stdoutLine[index + 1..];
        var event := f.parse(line);
        if event.Some? {
          CollectEvent(event.value);
        }
      }
    }

    /** Counts one event and all it contains. */
    method CollectEvent(v: Json)
      modifies this`counters
      ensures counters == Collect(f, old(counters), v)
      decreases v
    {
      hide Note, Skipped;
      match v {
        case List(items) =>
          for i := 0 to |items|
            invariant CollectItems(f, counters, v, i) == Collect(f, old(counters), v)
          {
            CollectEvent(items[i]);
          }
        case Object(fields) =>
          CollectObject(fields);
          for i := 0 to |fields|
            invariant CollectFields(f, counters, v, i) == Collect(f, old(counters), v)
          {
            if !Skipped(fields[i].0) {
              CollectEvent(fields[i].1);
            }
          }
        case _ =>
      }
    }

    /** Counts what an object says itself: its usage, its tool call, its subagent. */
    method CollectObject(fields: seq<(string, Json)>)
      modifies this`counters
      ensures counters == Note(f, old(counters), fields)
    {
      hide TextField, Nested, Contains, Decimal, IsSubagent, CallOf, CollectUsage;
      var usage := Nested(fields, "usage");
      if usage.Some? {
        counters := CollectUsage(f, counters, usage.value, f.lower(TextField(fields, ["type"])),
          TextField(fields, ["id", "message_id"]));
      }
      var call := CallOf(f, fields);
      if call.name != "" && Contains(call.typeName, "tool") {
        var key := call.id;
        if key == "" {
          key := "ordinal:" + Decimal(counters.toolCalls);
        }
        if key !in counters.toolIDs {
          counters := counters.(toolIDs := counters.toolIDs + {key}, toolCalls := counters.toolCalls + 1);
          if IsSubagent(f, call.name) {
            counters := counters.(subagentIDs := counters.subagentIDs + {key}, subagents := counters.subagents + 1);
          }
        }
      }
      if Contains(call.typeName, "subagent") {
        var key := call.id;
        if key == "" {
          key := "event:" + Decimal(counters.subagents);
        }
        if key !in counters.subagentIDs {
          counters := counters.(subagentIDs := counters.subagentIDs + {key}, subagents := counters.subagents + 1);
        }
      }
    }

    method CheckBudgets() returns (r: Option<Limit>)
      modifies this`limit
      ensures r == limit
      ensures limit == if old(limit).Some? then old(limit) else FirstCount(cfg, counters)
    {
      if limit.Some? {
        return limit;
      }
      if cfg.maxModelTokens > 0 && counters.modelTokens > cfg.maxModelTokens {
        limit := Some(TokenLimit);
      }
      if limit.None? && cfg.maxToolCalls > 0 && counters.toolCalls > cfg.maxToolCalls {
        limit := Some(ToolLimit);
      }
      if limit.None? && cfg.maxSubagents > 0 && counters.subagents > cfg.maxSubagents {
        limit := Some(SubagentLimit);
      }
      return limit;
    }

    /** A limit from outside the stream; the first limit stays. */
    method SetLimit(reason: Limit)
      requires Valid() && reason.Other?
      modifies this`limit
      ensures Valid() && limit == if old(limit).Some? then old(limit) else Some(reason)
    {
      if limit.None? {
        limit := Some(reason);
      }
    }

    /** The end of the stream: a leftover line is handled like a complete one. */
    method Finish() returns (r: Result)
      requires Valid()
      modifies this`counters, this`limit
      ensures r == Result(stdout, stderr, FinalCounters(f, stdout), limit)
      ensures limit == if old(limit).Some? then old(limit) else FirstCount(cfg, r.counters)
    {
      hide Lines, HandleAll, Collect;
      if |stdoutLine| > 0 {
        var event := f.parse(stdoutLine);
        if event.Some? {
          CollectEvent(event.value);
        }
      }
      var _ := CheckBudgets();
      r := Result(stdout, stderr, counters, limit);
    }
  }

  lemma TakeLine(text: string, handled: seq<string>, buffer: string, index: nat)
    requires Lines(text) == handled + Lines(buffer)
    requires index < |buffer| && buffer[index] == '\n' && forall i | 0 <= i < index :: buffer[i] != '\n'
    ensures Lines(text) == (handled + [buffer[..index]]) + Lines(buffer[index + 1..])
  {
    hide Lines;
    LinesSplit(buffer, index);
  }

  lemma LastLine(text: string, handled: seq<string>, line: string)
    requires Lines(text) == handled + [line]
    ensures Complete(text) == handled && Leftover(text) == line
  {}

  lemma TagLength(data: string, out: bool)
    ensures |Tag(data, out)| == |data|
  {}

  /** More objects keep a limit, or name the first used-up budget. */
  lemma LimitStays(cfg: Config, f: Format, total: int, objects: seq<Fields>, more: int, rest: seq<Fields>,
    before: Option<Limit>)
    requires before.Some? && !before.value.Other? ==> Reached(cfg, f, total, objects, before.value)
    requires total <= more
    ensures var limit := if before.Some? then before else FirstLimit(cfg, more, NoteAll(f, ZERO, objects + rest));
      limit.Some? && !limit.value.Other? ==> Reached(cfg, f, more, objects + rest, limit.value)
  {
    hide NoteAll, Reached;
    if before.Some? && !before.value.Other? {
      ReachedStays(cfg, f, total, objects, more, rest, before.value);
    } else if before.None? {
      var limit := FirstLimit(cfg, more, NoteAll(f, ZERO, objects + rest));
      if limit.Some? {
        ReachedNow(cfg, f, more, objects + rest, limit.value);
      }
    }
  }

  /** The counters of any text are sound: one key for every counted tool call. */
  lemma CountersAreSound(f: Format, text: string)
    ensures Sound(CountersOf(f, text)) && Sound(FinalCounters(f, text))
    ensures FinalCounters(f, text).toolCalls == |FinalCounters(f, text).toolIDs|
  {
    hide NoteAll, TextObjects, StreamObjects, CountersOf, FinalCounters;
    StreamNotes(f, text);
    NotesFollow(f, ZERO, TextObjects(f, text));
    NotesFollow(f, ZERO, StreamObjects(f, text));
  }

  /** More output never lowers a counter; the token total it lowers only with an object that lowers it. */
  lemma CountersOnlyGrow(f: Format, text: string, more: string)
    ensures Follows(CountersOf(f, text), CountersOf(f, text + more))
    ensures TextObjects(f, text) <= TextObjects(f, text + more)
    ensures var before, after := TextObjects(f, text), TextObjects(f, text + more);
      (forall j | |before| <= j < |after| :: !Lowers(f, after, j)) ==>
        CountersOf(f, text).modelTokens <= CountersOf(f, text + more).modelTokens
  {
    hide Follows, CountersOf, FinalCounters, StreamObjects, NoteAll, TextObjects, AllObjects, Complete, Leftover,
      Lowers;
    StreamNotes(f, text);
    StreamNotes(f, text + more);
    TextObjectsAppend(f, text, more);
    var before, after := TextObjects(f, text), TextObjects(f, text + more);
    NoteAllAppend(f, ZERO, before, after[|before|..]);
    NotesFollow(f, CountersOf(f, text), after[|before|..]);
    assert after[..|before|] == before && after[..|after|] == after;
    if forall j | |before| <= j < |after| :: !Lowers(f, after, j) {
      TotalStays(f, after, |before|, |after|);
    }
  }

  /** The token total never falls while a stream is noted, exactly when none of its objects lowers it. */
  lemma TotalNeverFallsExactly(f: Format, text: string)
    ensures var objects := StreamObjects(f, text);
      (forall i, j | 0 <= i <= j <= |objects| ::
        NoteAll(f, ZERO, objects[..i]).modelTokens <= NoteAll(f, ZERO, objects[..j]).modelTokens) <==>
        (forall j | 0 <= j < |objects| :: !Lowers(f, objects, j))
  {
    hide StreamObjects, NoteAll, Lowers;
    var objects := StreamObjects(f, text);
    if j: nat :| j < |objects| && Lowers(f, objects, j) {
      TotalFallsExactly(f, objects, j);
      assert 0 <= j <= j + 1 <= |objects|;
    } else {
      forall i, j | 0 <= i <= j <= |objects|
        ensures NoteAll(f, ZERO, objects[..i]).modelTokens <= NoteAll(f, ZERO, objects[..j]).modelTokens
      {
        TotalStays(f, objects, i, j);
      }
    }
  }

  /** A line that decodes to an event of minus one token in all, and nothing else: the total falls below zero. */
  lemma RefundStream(f: Format, line: string)
    requires line != "" && '\n' !in line && f.parse(line) == Some(Object(RefundEvent())) &&
      f.lower("assistant") == "assistant"
    ensures StreamObjects(f, line) == [RefundEvent()] && FinalCounters(f, line).modelTokens < 0
  {
    LinesOfPlain(line);
    hide Lines, RefundEvent, NoteAll, CountersOf, FinalCounters;
    assert Complete(line) == [] && Leftover(line) == line;
    RefundHasNoObjects();
    StreamNotes(f, line);
    RefundLowers(f);
  }

  lemma RefundHasNoObjects()
    ensures Objects(Object(RefundEvent())) == [RefundEvent()]
  {
    var v := Object(RefundEvent());
    assert v.fields[0].1 == Text("assistant") && Skipped(v.fields[1].0);
    assert FieldObjects(v, 2) == [] && FieldObjects(v, 1) == [] && FieldObjects(v, 0) == [];
  }

  // ---------------------------------------------------------------- a whole run

  /** The counters after the complete lines of what is kept of the output. */
  function CountersAfter(cfg: Config, f: Format, inputs: seq<Input>): Counters
  {
    CountersOf(f, Select(Kept(cfg, Bytes(inputs)), true))
  }

  /** The limit one more input sets where none stands: the reason from outside, or the first budget used up. */
  function LimitAt(cfg: Config, f: Format, inputs: seq<Input>): Option<Limit>
    requires inputs != []
  {
    match inputs[|inputs| - 1]
    case Output(_, _) => FirstLimit(cfg, |Bytes(inputs)|, CountersAfter(cfg, f, inputs))
    case Interrupted(reason) => Some(Other(reason))
  }

  /** The limit after some inputs: the first that any of them sets. */
  function LimitAfter(cfg: Config, f: Format, inputs: seq<Input>): Option<Limit>
  {
    if inputs == [] then None
    else
      var before := LimitAfter(cfg, f, inputs[..|inputs| - 1]);
      if before.Some? then before else LimitAt(cfg, f, inputs)
  }

  /** The first limit is never replaced, whatever comes. */
  lemma {:induction false} FirstLimitStays(cfg: Config, f: Format, inputs: seq<Input>, more: seq<Input>)
    requires LimitAfter(cfg, f, inputs).Some?
    ensures LimitAfter(cfg, f, inputs + more) == LimitAfter(cfg, f, inputs)
    decreases |more|
  {
    hide LimitAt;
    if more == [] {
      assert inputs + more == inputs;
    } else {
      var front := more[..|more| - 1];
      FirstLimitStays(cfg, f, inputs, front);
      assert (inputs + more)[..|inputs + more| - 1] == inputs + front;
    }
  }

  /** The limit the input at `n` sets where none stands. */
  function SetBy(cfg: Config, f: Format, inputs: seq<Input>, n: nat): Option<Limit>
    requires n < |inputs|
  {
    LimitAt(cfg, f, inputs[..n + 1])
  }

  /** Which input sets the limit: the first that sets any. */
  ghost predicate FirstToSet(cfg: Config, f: Format, inputs: seq<Input>, n: nat)
    requires n < |inputs|
  {
    SetBy(cfg, f, inputs, n).Some? && forall i | 0 <= i < n :: SetBy(cfg, f, inputs, i).None?
  }

  /** The limit of a run is that of the first input that sets one, and there is none exactly when no input sets any. */
  lemma {:induction false} LimitIsFirst(cfg: Config, f: Format, inputs: seq<Input>)
    ensures forall n | 0 <= n < |inputs| && FirstToSet(cfg, f, inputs, n) ::
      LimitAfter(cfg, f, inputs) == SetBy(cfg, f, inputs, n)
    ensures LimitAfter(cfg, f, inputs).None? <==> forall n | 0 <= n < |inputs| :: SetBy(cfg, f, inputs, n).None?
  {
    hide LimitAt;
    if inputs != [] {
      var front, last := inputs[..|inputs| - 1], |inputs| - 1;
      LimitIsFirst(cfg, f, front);
      assert inputs[..last + 1] == inputs;
      forall n | 0 <= n < last ensures SetBy(cfg, f, inputs, n) == SetBy(cfg, f, front, n) {
        assert inputs[..n + 1] == front[..n + 1];
      }
      assert SetBy(cfg, f, inputs, last) == LimitAt(cfg, f, inputs);
      hide SetBy;
      forall n | 0 <= n < |inputs| && FirstToSet(cfg, f, inputs, n)
        ensures LimitAfter(cfg, f, inputs) == SetBy(cfg, f, inputs, n)
      {
        if n < last {
          assert FirstToSet(cfg, f, front, n);
        }
      }
    }
  }

  /** The result does not depend on how the bytes were cut into writes; the kept bytes add up to what was written or to
      the cap; without a limit every budget held and nothing came from outside, and the first limit stands: one that
      names a budget names one that was used up at some point, and still is at the end unless it is that of tokens and
      an object lowered their total. */
  method Run(cfg: Config, f: Format, inputs: seq<Input>) returns (r: Result)
    ensures r.stdout == Select(Kept(cfg, Bytes(inputs)), true) && r.stderr == Select(Kept(cfg, Bytes(inputs)), false)
    ensures r.counters == FinalCounters(f, r.stdout) && Sound(r.counters)
    ensures |r.stdout| + |r.stderr| == |Kept(cfg, Bytes(inputs))|
    ensures r.limit ==
      if LimitAfter(cfg, f, inputs).Some? then LimitAfter(cfg, f, inputs) else FirstCount(cfg, r.counters)
    ensures r.limit.None? ==> !Over(cfg, |Bytes(inputs)|, r.counters)
    ensures r.limit.None? ==> forall i | 0 <= i < |inputs| :: inputs[i].Output?
    ensures r.limit.Some? && !r.limit.value.Other? ==>
      var objects := StreamObjects(f, r.stdout);
      && Reached(cfg, f, |Bytes(inputs)|, objects, r.limit.value)
      && ((r.limit.value.TokenLimit? ==> forall j | 0 <= j < |objects| :: !Lowers(f, objects, j)) ==>
          Exceeds(cfg, |Bytes(inputs)|, r.counters, r.limit.value))
  {
    var state := new StreamState(cfg, f);
    for i := 0 to |inputs|
      invariant state.Valid() && state.cfg == cfg && state.f == f && state.written == Bytes(inputs[..i])
      invariant state.limit == LimitAfter(cfg, f, inputs[..i])
    {
      assert inputs[..i + 1][..i] == inputs[..i] && inputs[..i + 1][i] == inputs[i];
      hide Select, Kept, Tag, CountersOf, Leftover, Over, Exceeds, FirstLimit, Reached, TextObjects;
      match inputs[i] {
        case Output(data, out) => state.Add(data, out);
        case Interrupted(reason) => state.SetLimit(Other(reason));
      }
    }
    assert inputs[..|inputs|] == inputs;
    InterruptedIsSeen(cfg, f, inputs);
    ghost var before := state.limit;
    r := state.Finish();
    ChannelsShareBytes(Kept(cfg, Bytes(inputs)));
    CountersAreSound(f, r.stdout);
    EndKeepsLimits(cfg, f, |Bytes(inputs)|, r.stdout, before, r.limit);
    hide *;
  }

  /** A limit from outside leaves some limit. */
  lemma {:induction false} InterruptedIsSeen(cfg: Config, f: Format, inputs: seq<Input>)
    ensures LimitAfter(cfg, f, inputs).None? ==> forall i | 0 <= i < |inputs| :: inputs[i].Output?
  {
    hide FirstLimit, CountersAfter, Bytes;
    if inputs != [] {
      InterruptedIsSeen(cfg, f, inputs[..|inputs| - 1]);
    }
  }

  /** At the end of the stream a limit stays, or the first used-up budget is named. */
  lemma EndKeepsLimits(cfg: Config, f: Format, total: int, text: string, before: Option<Limit>, limit: Option<Limit>)
    requires before.None? ==> !Over(cfg, total, CountersOf(f, text))
    requires before.Some? && !before.value.Other? ==> Reached(cfg, f, total, TextObjects(f, text), before.value)
    requires limit == if before.Some? then before else FirstCount(cfg, FinalCounters(f, text))
    ensures limit.None? ==> !Over(cfg, total, FinalCounters(f, text))
    ensures limit.Some? && !limit.value.Other? ==>
      var objects := StreamObjects(f, text);
      && Reached(cfg, f, total, objects, limit.value)
      && ((limit.value.TokenLimit? ==> forall j | 0 <= j < |objects| :: !Lowers(f, objects, j)) ==>
          Exceeds(cfg, total, FinalCounters(f, text), limit.value))
  {
    hide CountersOf, FinalCounters, TextObjects, Reached, Lowers, LineObjects, Leftover, NoteAll;
    StreamNotes(f, text);
    var objects := StreamObjects(f, text);
    if limit.Some? && !limit.value.Other? {
      if before.Some? {
        ReachedStays(cfg, f, total, TextObjects(f, text), total, objects[|TextObjects(f, text)|..], limit.value);
        assert TextObjects(f, text) + objects[|TextObjects(f, text)|..] == objects;
      } else {
        ReachedNow(cfg, f, total, objects, limit.value);
      }
      if limit.value.TokenLimit? ==> forall j | 0 <= j < |objects| :: !Lowers(f, objects, j) {
        ReachedHolds(cfg, f, total, objects, limit.value);
      }
    }
  }
}
