/** How often the subagents of a whole stream are counted. */
module Subagents {
  import opened Wrappers
  import opened Strings
  import opened StreamEvents
  import opened Stream

  // ---------------------------------------------------------------- the calls of a stream

  /** What the objects of a series say of calls; most say nothing. */
  function CallsOf(f: Format, objects: seq<Fields>): (calls: seq<Call>)
    ensures |calls| == |objects|
    ensures forall i | 0 <= i < |objects| :: calls[i] == CallOf(f, objects[i])
  {
    seq(|objects|, i requires 0 <= i < |objects| => CallOf(f, objects[i]))
  }

  /** What a stream says of calls, object by object. */
  function StreamCalls(f: Format, text: string): seq<Call>
  {
    CallsOf(f, StreamObjects(f, text))
  }

  // ---------------------------------------------------------------- counting them

  function CountCall(f: Format, c: Counters, call: Call): Counters
  {
    CountSubagent(CountTool(f, c, call), call)
  }

  function CountCalls(f: Format, c: Counters, calls: seq<Call>): Counters
    decreases |calls|
  {
    if calls == [] then c else CountCall(f, CountCalls(f, c, calls[..|calls| - 1]), calls[|calls| - 1])
  }

  /** Equal in all that concerns calls. */
  ghost predicate SameTally(c: Counters, d: Counters)
  {
    c.toolCalls == d.toolCalls && c.subagents == d.subagents && c.toolIDs == d.toolIDs && c.subagentIDs == d.subagentIDs
  }

  lemma CountKeepsTally(f: Format, c: Counters, d: Counters, call: Call)
    requires SameTally(c, d)
    ensures SameTally(CountCall(f, c, call), CountCall(f, d, call))
  {
    hide StreamEvents.Contains, Decimal, IsSubagent;
  }

  lemma NoteCounts(f: Format, c: Counters, d: Counters, fields: Fields)
    requires SameTally(c, d)
    ensures SameTally(Note(f, c, fields), CountCall(f, d, CallOf(f, fields)))
  {
    assert SameTally(Used(f, c, fields), d) by {
      hide UsageKey, InputTokens, TotalTokens, IntegerField, FirstNumber, Cumulative, TextField, Nested;
    }
    hide Used, CallOf, CountTool, CountSubagent, SameTally;
    CountKeepsTally(f, Used(f, c, fields), d, CallOf(f, fields));
  }

  /** Noting objects counts their calls in order. */
  lemma {:induction false} NotesCount(f: Format, objects: seq<Fields>)
    ensures SameTally(NoteAll(f, ZERO, objects), CountCalls(f, ZERO, CallsOf(f, objects)))
    decreases |objects|
  {
    hide Note, CountCall, CallOf, SameTally;
    if objects == [] {
      SameTallySelf(ZERO);
    } else {
      var front := objects[..|objects| - 1];
      NotesCount(f, front);
      assert CallsOf(f, objects)[..|objects| - 1] == CallsOf(f, front);
      NoteCounts(f, NoteAll(f, ZERO, front), CountCalls(f, ZERO, CallsOf(f, front)), objects[|objects| - 1]);
    }
  }

  lemma SameTallySelf(c: Counters)
    ensures SameTally(c, c)
  {}

  /** What a stream counts of calls is what its calls count one after the other. */
  lemma StreamCounts(f: Format, text: string)
    ensures SameTally(FinalCounters(f, text), CountCalls(f, ZERO, StreamCalls(f, text)))
  {
    hide FinalCounters, CountersOf, StreamObjects, TextObjects, NoteAll, CountCalls, SameTally;
    StreamNotes(f, text);
    NotesCount(f, StreamObjects(f, text));
  }

  // ---------------------------------------------------------------- the ones counted twice

  predicate IsTool(call: Call)
  {
    call.name != "" && StreamEvents.Contains(call.typeName, "tool")
  }

  predicate Announces(call: Call)
  {
    StreamEvents.Contains(call.typeName, "subagent")
  }

  /** The key a tool call is counted under. */
  function ToolKey(c: Counters, call: Call): string
  {
    if call.id == "" then "ordinal:" + Decimal(c.toolCalls) else call.id
  }

  /** A tool call not counted before starts a subagent. */
  predicate Starts(f: Format, c: Counters, call: Call)
  {
    IsTool(call) && IsSubagent(f, call.name) && ToolKey(c, call) !in c.toolIDs
  }

  /** It starts one that has been counted already. */
  predicate CountsAgain(f: Format, c: Counters, call: Call)
  {
    Starts(f, c, call) && ToolKey(c, call) in c.subagentIDs
  }

  function TimesAgain(f: Format, calls: seq<Call>): nat
    decreases |calls|
  {
    if calls == [] then 0
    else
      var front, last := calls[..|calls| - 1], calls[|calls| - 1];
      TimesAgain(f, front) + if CountsAgain(f, CountCalls(f, ZERO, front), last) then 1 else 0
  }

  lemma OneMore(keys: set<string>, key: string)
    ensures |keys + {key}| == |keys| + if key in keys then 0 else 1
  {
    assert key in keys ==> keys + {key} == keys;
  }

  lemma ToolAgain(f: Format, c: Counters, call: Call)
    ensures CountTool(f, c, call).subagents - |CountTool(f, c, call).subagentIDs| ==
      c.subagents - |c.subagentIDs| + if CountsAgain(f, c, call) then 1 else 0
  {
    var key, d := ToolKey(c, call), CountTool(f, c, call);
    OneMore(c.subagentIDs, key);
    assert d.subagentIDs == (if Starts(f, c, call) then c.subagentIDs + {key} else c.subagentIDs) &&
           d.subagents == (if Starts(f, c, call) then c.subagents + 1 else c.subagents) by {
      hide StreamEvents.Contains, Decimal, IsSubagent;
    }
    assert CountsAgain(f, c, call) <==> Starts(f, c, call) && key in c.subagentIDs;
    hide *;
  }

  lemma AnnouncedOnce(c: Counters, call: Call)
    ensures CountSubagent(c, call).subagents - |CountSubagent(c, call).subagentIDs| == c.subagents - |c.subagentIDs|
  {
    hide StreamEvents.Contains, Decimal;
  }

  lemma OneCallAgain(f: Format, c: Counters, call: Call)
    ensures CountCall(f, c, call).subagents - |CountCall(f, c, call).subagentIDs| ==
      c.subagents - |c.subagentIDs| + if CountsAgain(f, c, call) then 1 else 0
  {
    hide CountTool, CountSubagent, CountsAgain;
    ToolAgain(f, c, call);
    AnnouncedOnce(CountTool(f, c, call), call);
  }

  lemma {:induction false} CallsAgain(f: Format, calls: seq<Call>)
    ensures var c := CountCalls(f, ZERO, calls); c.subagents == |c.subagentIDs| + TimesAgain(f, calls)
    decreases |calls|
  {
    hide CountCall, CountsAgain;
    if calls != [] {
      CallsAgain(f, calls[..|calls| - 1]);
      OneCallAgain(f, CountCalls(f, ZERO, calls[..|calls| - 1]), calls[|calls| - 1]);
    }
  }

  /** Every tool call and every announcement carries an identifier; other objects need none. */
  ghost predicate Identified(calls: seq<Call>)
  {
    forall i | 0 <= i < |calls| && (IsTool(calls[i]) || Announces(calls[i])) :: calls[i].id != ""
  }

  /** The first tool call with its identifier starts a subagent that an event before it announced. */
  ghost predicate AnnouncedBefore(f: Format, calls: seq<Call>, j: nat)
    requires j < |calls|
  {
    IsTool(calls[j]) && IsSubagent(f, calls[j].name) &&
    (forall i | 0 <= i < j :: !(IsTool(calls[i]) && calls[i].id == calls[j].id)) &&
    exists i :: 0 <= i < j && Announces(calls[i]) && calls[i].id == calls[j].id
  }

  lemma {:induction false} KeysOfCalls(f: Format, calls: seq<Call>, x: string)
    requires Identified(calls)
    ensures var c := CountCalls(f, ZERO, calls);
      && (x in c.toolIDs <==> exists i :: 0 <= i < |calls| && IsTool(calls[i]) && calls[i].id == x)
      && ((exists i :: 0 <= i < |calls| && Announces(calls[i]) && calls[i].id == x) ==> x in c.subagentIDs)
      && (x in c.subagentIDs && x !in c.toolIDs ==>
          exists i :: 0 <= i < |calls| && Announces(calls[i]) && calls[i].id == x)
    decreases |calls|
  {
    hide StreamEvents.Contains, Decimal, IsSubagent;
    if calls != [] {
      var front, last := calls[..|calls| - 1], calls[|calls| - 1];
      KeysOfCalls(f, front, x);
      assert calls == front + [last];
      assert forall i | 0 <= i < |front| :: calls[i] == front[i];
      OneCallKeys(f, CountCalls(f, ZERO, front), last, x);
      assert calls[|front|] == last;
    }
  }

  lemma OneCallKeys(f: Format, c: Counters, call: Call, x: string)
    requires IsTool(call) || Announces(call) ==> call.id != ""
    ensures var d := CountCall(f, c, call);
      && (x in d.toolIDs <==> x in c.toolIDs || (IsTool(call) && x == call.id))
      && (x in c.subagentIDs || (Announces(call) && x == call.id) ==> x in d.subagentIDs)
      && (x in d.subagentIDs ==> x in c.subagentIDs || x in d.toolIDs || (Announces(call) && x == call.id))
  {
    hide StreamEvents.Contains, Decimal, IsSubagent;
  }

  lemma {:induction false} TimesAgainIsZero(f: Format, calls: seq<Call>)
    requires Identified(calls)
    ensures TimesAgain(f, calls) == 0 <==> forall j | 0 <= j < |calls| :: !AnnouncedBefore(f, calls, j)
    decreases |calls|
  {
    hide IsTool, Announces, IsSubagent, CountCalls;
    if calls != [] {
      var n, front := |calls| - 1, calls[..|calls| - 1];
      TimesAgainIsZero(f, front);
      KeysOfCalls(f, front, calls[n].id);
      assert forall i | 0 <= i < n :: calls[i] == front[i];
      assert CountsAgain(f, CountCalls(f, ZERO, front), calls[n]) <==> AnnouncedBefore(f, calls, n);
      assert forall j | 0 <= j < n :: AnnouncedBefore(f, calls, j) <==> AnnouncedBefore(f, front, j);
    }
  }

  /** The subagent count of a stream exceeds the number of subagent keys by the tool calls that start one already
      counted. */
  lemma SubagentsCountedAgain(f: Format, text: string)
    ensures FinalCounters(f, text).subagents == |FinalCounters(f, text).subagentIDs| +
      TimesAgain(f, StreamCalls(f, text))
  {
    StreamCounts(f, text);
    CallsAgain(f, StreamCalls(f, text));
    hide FinalCounters, StreamCalls, CountCalls, TimesAgain;
  }

  /** When the tool calls and announcements of a stream carry identifiers, each subagent is counted once exactly when
      none is announced by an event before the tool call that starts it. */
  lemma SubagentsCountedOnce(f: Format, text: string)
    requires Identified(StreamCalls(f, text))
    ensures FinalCounters(f, text).subagents == |FinalCounters(f, text).subagentIDs| <==>
      forall j | 0 <= j < |StreamCalls(f, text)| :: !AnnouncedBefore(f, StreamCalls(f, text), j)
  {
    SubagentsCountedAgain(f, text);
    TimesAgainIsZero(f, StreamCalls(f, text));
    hide FinalCounters, StreamCalls, TimesAgain, Identified, AnnouncedBefore;
  }

  function Announcement(id: string): Fields
  {
    [("type", Text("subagent_start")), ("id", Text(id))]
  }

  function Start(id: string): Fields
  {
    [("type", Text("tool_use")), ("name", Text("Task")), ("id", Text(id))]
  }

  lemma CallsOfBoth(f: Format, id: string)
    requires f.lower("subagent_start") == "subagent_start" && f.lower("tool_use") == "tool_use"
    ensures CallOf(f, Announcement(id)) == Call("subagent_start", "", id)
    ensures CallOf(f, Start(id)) == Call("tool_use", "Task", id)
  {
    var a, b := Announcement(id), Start(id);
    assert Get(a[1..][1..], "id") == None && a[1..][1..] == [] && b[1..][1..][1..] == [];
    assert Get(a[1..], "id") == Some(Text(id)) && Get(b[1..][1..], "id") == Some(Text(id));
    FieldsOf(a, "subagent_start", "", id);
    FieldsOf(b, "tool_use", "Task", id);
  }

  lemma FieldsOf(fields: Fields, typeName: string, name: string, id: string)
    requires fields == if name == "" then [("type", Text(typeName)), ("id", Text(id))]
                       else [("type", Text(typeName)), ("name", Text(name)), ("id", Text(id))]
    ensures Nested(fields, "toolCall") == None && Nested(fields, "tool_call") == None
    ensures TextField(fields, ["type"]) == typeName
    ensures TextField(fields, ["name", "tool_name", "toolName"]) == name
    ensures TextField(fields, ["id", "tool_call_id", "toolCallId", "tool_use_id"]) == id
  {
    NoField(fields, "toolCall");
    NoField(fields, "tool_call");
    NameField(fields, typeName, name, id);
    IdField(fields, typeName, name, id);
    assert Get(fields, "type") == Some(Text(typeName));
    hide Get;
  }

  lemma NameField(fields: Fields, typeName: string, name: string, id: string)
    requires fields == if name == "" then [("type", Text(typeName)), ("id", Text(id))]
                       else [("type", Text(typeName)), ("name", Text(name)), ("id", Text(id))]
    ensures TextField(fields, ["name", "tool_name", "toolName"]) == name
  {
    if name == "" {
      NoTexts(fields, ["name", "tool_name", "toolName"]);
    } else {
      assert Get(fields[1..], "name") == Some(Text(name)) && Get(fields, "name") == Some(Text(name));
    }
  }

  lemma IdField(fields: Fields, typeName: string, name: string, id: string)
    requires fields == if name == "" then [("type", Text(typeName)), ("id", Text(id))]
                       else [("type", Text(typeName)), ("name", Text(name)), ("id", Text(id))]
    ensures TextField(fields, ["id", "tool_call_id", "toolCallId", "tool_use_id"]) == id
  {
    if name != "" {
      assert Get(fields[1..][1..], "id") == Some(Text(id));
    }
    assert Get(fields[1..], "id") == Some(Text(id)) && Get(fields, "id") == Some(Text(id));
  }

  lemma {:induction false} NoTexts(fields: Fields, keys: seq<string>)
    requires forall i, k | 0 <= i < |fields| && 0 <= k < |keys| :: fields[i].0 != keys[k]
    ensures TextField(fields, keys) == ""
  {
    if keys != [] {
      NoField(fields, keys[0]);
      NoTexts(fields, keys[1..]);
    }
  }

  lemma CountedUnderOneKey(f: Format, id: string)
    requires id != "" && IsSubagent(f, "Task")
    ensures var calls := [Call("subagent_start", "", id), Call("tool_use", "Task", id)];
      && Identified(calls) && AnnouncedBefore(f, calls, 1)
      && CountCalls(f, ZERO, calls).subagents == 2 && CountCalls(f, ZERO, calls).subagentIDs == {id}
  {
    var first, second := Call("subagent_start", "", id), Call("tool_use", "Task", id);
    assert Announces(first) && IsTool(second) && !IsTool(first) && !Announces(second) by {
      NotContained("tool_use", "subagent");
    }
    hide StreamEvents.Contains, IsSubagent, Decimal;
    assert [first, second][..1] == [first] && [first][..0] == [];
    assert CountCalls(f, ZERO, [first]) == CountCall(f, ZERO, first);
    assert [first, second][0] == first;
  }

  /** A stream of two lines, the announcement of a subagent and the tool call that starts it: two subagents are counted
      under one key. */
  lemma AnnouncedThenStarted(f: Format, id: string, first: string, second: string)
    requires id != "" && '\n' !in first && '\n' !in second && second != "" && IsSubagent(f, "Task")
    requires f.lower("subagent_start") == "subagent_start" && f.lower("tool_use") == "tool_use"
    requires f.parse(first) == Some(Object(Announcement(id))) && f.parse(second) == Some(Object(Start(id)))
    ensures var text := first + "\n" + second;
      && Identified(StreamCalls(f, text)) && FinalCounters(f, text).subagents == 2 &&
        FinalCounters(f, text).subagentIDs == {id}
  {
    var text := first + "\n" + second;
    TwoLines(first, second);
    TwoObjects(id);
    CallsOfBoth(f, id);
    CountedUnderOneKey(f, id);
    StreamCounts(f, text);
    hide Complete, Leftover, Announcement, Start, CallOf, FinalCounters, CountCalls, IsSubagent, Identified, Objects;
    assert AllObjects(f, [first]) == LineObjects(f, first) + AllObjects(f, []);
    assert StreamObjects(f, text) == [Announcement(id), Start(id)];
    assert StreamCalls(f, text) == [Call("subagent_start", "", id), Call("tool_use", "Task", id)];
  }

  lemma TwoLines(first: string, second: string)
    requires '\n' !in first && '\n' !in second
    ensures Complete(first + "\n" + second) == [first] && Leftover(first + "\n" + second) == second
  {
    var text := first + "\n" + second;
    LinesSplit(text, |first|);
    LinesOfPlain(second);
    assert text[..|first|] == first && text[|first| + 1..] == second;
  }

  lemma TwoObjects(id: string)
    ensures Objects(Object(Announcement(id))) == [Announcement(id)] && Objects(Object(Start(id))) == [Start(id)]
  {
    NoObjectsInTexts(Object(Announcement(id)), 0);
    NoObjectsInTexts(Object(Start(id)), 0);
  }

  lemma {:induction false} NoObjectsInTexts(v: Json, i: nat)
    requires v.Object? && i <= |v.fields| && forall k | 0 <= k < |v.fields| :: v.fields[k].1.Text?
    ensures FieldObjects(v, i) == []
    decreases |v.fields| - i
  {
    hide Skipped;
    if i < |v.fields| {
      NoObjectsInTexts(v, i + 1);
    }
  }

  lemma {:induction false} NotContained(s: string, part: string)
    requires |s| <= |part| && s != part
    ensures !StreamEvents.Contains(s, part)
  {
    if s != "" && |part| > 0 {
      assert |s[1..]| < |part|;
      if s[1..] != part {
        NotContained(s[1..], part);
      }
    }
  }
}
