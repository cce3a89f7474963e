/** What one decoded event of a client's output stream does to the usage counters. */
module StreamEvents {
  import opened Wrappers
  import opened Strings

  /** A decoded JSON value; an object's fields are in a fixed order. */
  datatype Json = Null | Bool(b: bool) | Number(value: real) | Text(text: string)
                | List(items: seq<Json>) | Object(fields: seq<(string, Json)>)

  type Fields = seq<(string, Json)>

  /** The decoder of one line, the encoder of a usage object, lower-casing and the last path element. */
  datatype Format = Format(
    parse: string -> Option<Json>,
    encode: Fields -> string,
    lower: string -> string,
    base: string -> string)

  datatype Counters = Counters(
    inputTokens: int, outputTokens: int, modelTokens: int, toolCalls: nat, subagents: nat, usageReported: bool,
    toolIDs: set<string>, subagentIDs: set<string>, usageIDs: set<string>)

  const ZERO := Counters(0, 0, 0, 0, 0, false, {}, {}, {})

  function Get(fields: Fields, key: string): (r: Option<Json>)
    ensures r.Some? ==> exists i :: 0 <= i < |fields| && fields[i].1 == r.value
  {
    if fields == [] then None
    else if fields[0].0 == key then Some(fields[0].1)
    else
      var rest := Get(fields[1..], key);
      assert rest.Some? ==>
        exists i :: 0 <= i < |fields[1..]| && fields[1..][i].1 == rest.value && fields[i + 1].1 == rest.value;
      rest
  }

  function Nested(fields: Fields, key: string): Option<Fields>
  {
    match Get(fields, key)
    case Some(Object(inner)) => Some(inner)
    case _ => None
  }

  function TextField(fields: Fields, keys: seq<string>): string
  {
    if keys == [] then ""
    else
      match Get(fields, keys[0])
      case Some(Text(text)) => text
      case _ => TextField(fields, keys[1..])
  }

  /** Conversion to an integer drops the fraction. */
  function Truncated(x: real): int
  {
    if x >= 0.0 then x.Floor else -((-x).Floor)
  }

  function FirstNumber(fields: Fields, keys: seq<string>): Option<int>
  {
    if keys == [] then None
    else
      match Get(fields, keys[0])
      case Some(Number(x)) => Some(Truncated(x))
      case _ => FirstNumber(fields, keys[1..])
  }

  function IntegerField(fields: Fields, keys: seq<string>): int
  {
    match FirstNumber(fields, keys)
    case Some(x) => x
    case None => 0
  }

  predicate Contains(s: string, part: string)
  {
    part <= s || (s != "" && Contains(s[1..], part))
  }

  // ---------------------------------------------------------------- token usage

  const INPUT_KEYS := ["input_tokens", "inputTokens", "prompt_tokens"]
  const CREATION_KEYS := ["cache_creation_input_tokens", "cacheCreationInputTokens"]
  const READ_KEYS := ["cache_read_input_tokens", "cacheReadInputTokens"]
  const OUTPUT_KEYS := ["output_tokens", "outputTokens", "completion_tokens"]
  const TOTAL_KEYS := ["model_tokens", "total_tokens", "totalTokens"]

  function InputTokens(usage: Fields): int
  {
    IntegerField(usage, INPUT_KEYS) + IntegerField(usage, CREATION_KEYS) + IntegerField(usage, READ_KEYS)
  }

  function TotalTokens(usage: Fields): int
  {
    var parts := InputTokens(usage) + IntegerField(usage, OUTPUT_KEYS);
    var total := IntegerField(usage, TOTAL_KEYS);
    if total < parts then parts else total
  }

  function UsageKey(f: Format, usage: Fields, typeName: string, id: string): string
  {
    typeName + "|" + id + "|" + f.encode(usage)
  }

  predicate Cumulative(typeName: string)
  {
    typeName == "result" || typeName == "agent_end" || typeName == "message_end"
  }

  /** A usage object is counted once per identified event; a cumulative one replaces smaller totals. */
  function CollectUsage(f: Format, c: Counters, usage: Fields, typeName: string, id: string): Counters
  {
    var reported := c.usageReported || FirstNumber(usage, INPUT_KEYS + OUTPUT_KEYS + TOTAL_KEYS).Some?;
    var key := UsageKey(f, usage, typeName, id);
    if id != "" && key in c.usageIDs then c.(usageReported := reported)
    else
      var d := c.(usageReported := reported, usageIDs := if id != "" then c.usageIDs + {key} else c.usageIDs);
      CountUsage(d, InputTokens(usage), IntegerField(usage, OUTPUT_KEYS), TotalTokens(usage), Cumulative(typeName))
  }

  function CountUsage(c: Counters, input: int, output: int, total: int, cumulative: bool): Counters
  {
    if !cumulative then
      c.(inputTokens := c.inputTokens + input, outputTokens := c.outputTokens + output,
        modelTokens := c.modelTokens + total)
    else if total >= c.modelTokens then
      c.(inputTokens := input, outputTokens := output, modelTokens := total)
    else c
  }

  // ---------------------------------------------------------------- tool calls and subagents

  /** The kind, the tool name and the identifier an event goes by; a nested call speaks for the event. */
  datatype Call = Call(typeName: string, name: string, id: string)

  function CallOf(f: Format, fields: Fields): Call
  {
    match Nested(fields, "toolCall")
    case Some(inner) => Call("tool_call", TextField(inner, ["name", "toolName"]),
      TextField(inner, ["id", "toolCallId"]))
    case None =>
      match Nested(fields, "tool_call")
      case Some(inner) => Call("tool_call", TextField(inner, ["name", "tool_name"]),
        TextField(inner, ["id", "tool_call_id"]))
      case None => Call(f.lower(TextField(fields, ["type"])), TextField(fields, ["name", "tool_name", "toolName"]),
                        TextField(fields, ["id", "tool_call_id", "toolCallId", "tool_use_id"]))
  }

  predicate IsSubagent(f: Format, name: string)
  {
    var n := f.lower(f.base(name));
    n == "agent" || n == "task" || n == "subagent"
  }

  function CountTool(f: Format, c: Counters, call: Call): Counters
  {
    var key := if call.id == "" then "ordinal:" + Decimal(c.toolCalls) else call.id;
    if call.name == "" || !Contains(call.typeName, "tool") || key in c.toolIDs then c
    else
      var d := c.(toolIDs := c.toolIDs + {key}, toolCalls := c.toolCalls + 1);
      if IsSubagent(f, call.name) then d.(subagentIDs := d.subagentIDs + {key}, subagents := d.subagents + 1) else d
  }

  function CountSubagent(c: Counters, call: Call): Counters
  {
    var key := if call.id == "" then "event:" + Decimal(c.subagents) else call.id;
    if !Contains(call.typeName, "subagent") || key in c.subagentIDs then c
    else c.(subagentIDs := c.subagentIDs + {key}, subagents := c.subagents + 1)
  }

  // ---------------------------------------------------------------- events

  /** The counters after the usage of an object, before its calls. */
  function Used(f: Format, c: Counters, fields: Fields): Counters
  {
    match Nested(fields, "usage")
    case Some(usage) => CollectUsage(f, c, usage, f.lower(TextField(fields, ["type"])),
      TextField(fields, ["id", "message_id"]))
    case None => c
  }

  /** What an object says itself, its children aside. */
  function Note(f: Format, c: Counters, fields: Fields): Counters
  {
    var call := CallOf(f, fields);
    CountSubagent(CountTool(f, Used(f, c, fields), call), call)
  }

  predicate Skipped(key: string)
  {
    key in ["usage", "input", "args", "arguments", "tool_input", "tool_call", "toolCall"]
  }

  /** The counters after an event and all it contains. */
  function Collect(f: Format, c: Counters, v: Json): Counters
    decreases v
  {
    match v
    case List(items) => CollectItems(f, c, v, 0)
    case Object(fields) => CollectFields(f, Note(f, c, fields), v, 0)
    case _ => c
  }

  function CollectItems(f: Format, c: Counters, v: Json, i: nat): Counters
    requires v.List? && i <= |v.items|
    decreases v, |v.items| - i
  {
    if i == |v.items| then c else CollectItems(f, Collect(f, c, v.items[i]), v, i + 1)
  }

  function CollectFields(f: Format, c: Counters, v: Json, i: nat): Counters
    requires v.Object? && i <= |v.fields|
    decreases v, |v.fields| - i
  {
    if i == |v.fields| then c
    else if Skipped(v.fields[i].0) then CollectFields(f, c, v, i + 1)
    else CollectFields(f, Collect(f, c, v.fields[i].1), v, i + 1)
  }

  // ---------------------------------------------------------------- the objects of an event

  /** The objects that are noted of an event, each before those it contains. */
  function Objects(v: Json): seq<Fields>
    decreases v
  {
    match v
    case List(items) => ItemObjects(v, 0)
    case Object(fields) => [fields] + FieldObjects(v, 0)
    case _ => []
  }

  function ItemObjects(v: Json, i: nat): seq<Fields>
    requires v.List? && i <= |v.items|
    decreases v, |v.items| - i
  {
    if i == |v.items| then [] else Objects(v.items[i]) + ItemObjects(v, i + 1)
  }

  function FieldObjects(v: Json, i: nat): seq<Fields>
    requires v.Object? && i <= |v.fields|
    decreases v, |v.fields| - i
  {
    if i == |v.fields| then []
    else (if Skipped(v.fields[i].0) then [] else Objects(v.fields[i].1)) + FieldObjects(v, i + 1)
  }

  function NoteAll(f: Format, c: Counters, objects: seq<Fields>): Counters
    decreases |objects|
  {
    if objects == [] then c else Note(f, NoteAll(f, c, objects[..|objects| - 1]), objects[|objects| - 1])
  }

  lemma {:induction false} NoteAllAppend(f: Format, c: Counters, a: seq<Fields>, b: seq<Fields>)
    ensures NoteAll(f, c, a + b) == NoteAll(f, NoteAll(f, c, a), b)
    decreases |b|
  {
    hide Note;
    if b == [] {
      assert a + b == a;
    } else {
      var front, last := b[..|b| - 1], b[|b| - 1];
      assert (a + b)[..|a + b| - 1] == a + front && (a + b)[|a + b| - 1] == last;
      NoteAllAppend(f, c, a, front);
    }
  }

  /** However an event is nested, collecting it is noting its objects one after the other. */
  lemma {:induction false} CollectNotes(f: Format, c: Counters, v: Json)
    ensures Collect(f, c, v) == NoteAll(f, c, Objects(v))
    decreases v
  {
    hide Note, Skipped;
    match v
    case List(items) => ItemsNote(f, c, v, 0);
    case Object(fields) =>
      FieldsNote(f, Note(f, c, fields), v, 0);
      assert [fields][..0] == [];
      assert NoteAll(f, c, [fields]) == Note(f, c, fields);
      NoteAllAppend(f, c, [fields], FieldObjects(v, 0));
    case _ =>
  }

  lemma {:induction false} ItemsNote(f: Format, c: Counters, v: Json, i: nat)
    requires v.List? && i <= |v.items|
    ensures CollectItems(f, c, v, i) == NoteAll(f, c, ItemObjects(v, i))
    decreases v, |v.items| - i
  {
    hide Collect, Note, Objects;
    if i < |v.items| {
      CollectNotes(f, c, v.items[i]);
      ItemsNote(f, Collect(f, c, v.items[i]), v, i + 1);
      NoteAllAppend(f, c, Objects(v.items[i]), ItemObjects(v, i + 1));
    }
  }

  lemma {:induction false} FieldsNote(f: Format, c: Counters, v: Json, i: nat)
    requires v.Object? && i <= |v.fields|
    ensures CollectFields(f, c, v, i) == NoteAll(f, c, FieldObjects(v, i))
    decreases v, |v.fields| - i
  {
    hide Collect, Note, Objects, Skipped;
    if i < |v.fields| {
      if Skipped(v.fields[i].0) {
        FieldsNote(f, c, v, i + 1);
        assert [] + FieldObjects(v, i + 1) == FieldObjects(v, i + 1);
      } else {
        CollectNotes(f, c, v.fields[i].1);
        FieldsNote(f, Collect(f, c, v.fields[i].1), v, i + 1);
        NoteAllAppend(f, c, Objects(v.fields[i].1), FieldObjects(v, i + 1));
      }
    }
  }

  // ---------------------------------------------------------------- what every object keeps

  /** Every counted tool call has its own key; every subagent key is counted. */
  ghost predicate Sound(c: Counters)
  {
    c.toolCalls == |c.toolIDs| && |c.subagentIDs| <= c.subagents
  }

  /** All counters but the token totals only grow. */
  ghost predicate Grows(c: Counters, d: Counters)
  {
    c.toolIDs <= d.toolIDs && c.subagentIDs <= d.subagentIDs && c.usageIDs <= d.usageIDs &&
    c.toolCalls <= d.toolCalls && c.subagents <= d.subagents && (c.usageReported ==> d.usageReported)
  }

  /** `d` may follow `c`: sound if `c` was, and nothing smaller, the token totals aside. */
  ghost predicate Follows(c: Counters, d: Counters)
  {
    Grows(c, d) && (Sound(c) ==> Sound(d))
  }

  lemma UsageFollows(f: Format, c: Counters, usage: Fields, typeName: string, id: string)
    ensures Follows(c, CollectUsage(f, c, usage, typeName, id))
  {
    hide TotalTokens, InputTokens, FirstNumber, IntegerField, UsageKey, Cumulative;
  }

  lemma ToolFollows(f: Format, c: Counters, call: Call)
    ensures Follows(c, CountTool(f, c, call)) && CountTool(f, c, call).modelTokens == c.modelTokens
  {
    hide Contains, Decimal, IsSubagent;
    var key := if call.id == "" then "ordinal:" + Decimal(c.toolCalls) else call.id;
    if key !in c.toolIDs {
      assert |c.toolIDs + {key}| == |c.toolIDs| + 1;
      AddOne(c.subagentIDs, key);
    }
  }

  lemma AddOne(s: set<string>, x: string)
    ensures |s + {x}| <= |s| + 1
  {
    if x in s {
      assert s + {x} == s;
    }
  }

  lemma SubagentFollows(c: Counters, call: Call)
    ensures Follows(c, CountSubagent(c, call)) && CountSubagent(c, call).modelTokens == c.modelTokens
  {
    hide Contains, Decimal;
  }

  lemma FollowsOn(c: Counters, d: Counters, e: Counters)
    requires Follows(c, d) && Follows(d, e)
    ensures Follows(c, e)
  {
    hide Sound;
  }

  /** One object keeps the counters sound and only lets them grow, the token totals aside. */
  lemma NoteFollows(f: Format, c: Counters, fields: Fields)
    ensures Follows(c, Note(f, c, fields))
  {
    hide Follows, CallOf, CountTool, CountSubagent, CollectUsage, TextField, Nested;
    var used := Used(f, c, fields);
    assert Follows(c, used) by {
      FollowsSelf(c);
      if Nested(fields, "usage").Some? {
        UsageFollows(f, c, Nested(fields, "usage").value, f.lower(TextField(fields, ["type"])),
          TextField(fields, ["id", "message_id"]));
      }
    }
    var call := CallOf(f, fields);
    ToolFollows(f, used, call);
    SubagentFollows(CountTool(f, used, call), call);
    FollowsOn(c, used, CountTool(f, used, call));
    FollowsOn(c, CountTool(f, used, call), Note(f, c, fields));
  }

  lemma FollowsSelf(c: Counters)
    ensures Follows(c, c)
  {}

  /** Whatever objects come, the counters stay sound and only grow, the token totals aside. */
  lemma {:induction false} NotesFollow(f: Format, c: Counters, objects: seq<Fields>)
    ensures Follows(c, NoteAll(f, c, objects))
    decreases |objects|
  {
    hide Note, Follows;
    if objects == [] {
      FollowsSelf(c);
    } else {
      var d := NoteAll(f, c, objects[..|objects| - 1]);
      NotesFollow(f, c, objects[..|objects| - 1]);
      NoteFollows(f, d, objects[|objects| - 1]);
      FollowsOn(c, d, NoteAll(f, c, objects));
    }
  }

  // ---------------------------------------------------------------- the token total

  /** The key of an object's identified usage. */
  function KeyOf(f: Format, fields: Fields): Option<string>
  {
    var id := TextField(fields, ["id", "message_id"]);
    match Nested(fields, "usage")
    case Some(usage) => if id == "" then None else Some(UsageKey(f, usage, f.lower(TextField(fields, ["type"])), id))
    case None => None
  }

  /** The object reports a usage that is added to the totals, and whose total is negative. */
  predicate Refunds(f: Format, fields: Fields)
  {
    Nested(fields, "usage").Some? && !Cumulative(f.lower(TextField(fields, ["type"]))) &&
    TotalTokens(Nested(fields, "usage").value) < 0
  }

  /** The object at `j` refunds tokens, and its usage has not been reported before. */
  ghost predicate Lowers(f: Format, objects: seq<Fields>, j: nat)
    requires j < |objects|
  {
    Refunds(f, objects[j]) &&
    (KeyOf(f, objects[j]).Some? ==> forall i | 0 <= i < j :: KeyOf(f, objects[i]) != KeyOf(f, objects[j]))
  }

  lemma UsageTotal(f: Format, c: Counters, usage: Fields, typeName: string, id: string)
    ensures var d := CollectUsage(f, c, usage, typeName, id);
      && (d.modelTokens < c.modelTokens <==>
          (id == "" || UsageKey(f, usage, typeName, id) !in c.usageIDs) && !Cumulative(typeName) &&
            TotalTokens(usage) < 0)
      && d.usageIDs == c.usageIDs + (if id == "" then {} else {UsageKey(f, usage, typeName, id)})
  {
    hide TotalTokens, InputTokens, FirstNumber, IntegerField, UsageKey, Cumulative;
  }

  /** One object lowers the token total exactly when it refunds tokens under no key or under a new one. */
  lemma NoteTotal(f: Format, c: Counters, fields: Fields)
    ensures var d, key := Note(f, c, fields), KeyOf(f, fields);
      && (d.modelTokens < c.modelTokens <==> Refunds(f, fields) && (key.Some? ==> key.value !in c.usageIDs))
      && d.usageIDs == c.usageIDs + (if key.Some? then {key.value} else {})
  {
    hide CallOf, CountTool, CountSubagent, CollectUsage, TextField, Nested, UsageKey, Cumulative, TotalTokens;
    var call := CallOf(f, fields);
    CallsKeepUsage(f, Used(f, c, fields), call);
    if Nested(fields, "usage").Some? {
      UsageTotal(f, c, Nested(fields, "usage").value, f.lower(TextField(fields, ["type"])),
        TextField(fields, ["id", "message_id"]));
    }
  }

  lemma CallsKeepUsage(f: Format, c: Counters, call: Call)
    ensures var d := CountSubagent(CountTool(f, c, call), call);
      d.modelTokens == c.modelTokens && d.usageIDs == c.usageIDs
  {
    hide Contains, Decimal, IsSubagent;
  }

  lemma {:induction false} UsageKeys(f: Format, objects: seq<Fields>, key: string)
    ensures key in NoteAll(f, ZERO, objects).usageIDs <==>
      exists i :: 0 <= i < |objects| && KeyOf(f, objects[i]) == Some(key)
    decreases |objects|
  {
    hide Note, KeyOf;
    if objects != [] {
      var front, last := objects[..|objects| - 1], objects[|objects| - 1];
      UsageKeys(f, front, key);
      NoteTotal(f, NoteAll(f, ZERO, front), last);
      assert forall i | 0 <= i < |front| :: front[i] == objects[i];
    }
  }

  /** In any series of objects, the token total falls at exactly those that lower it. */
  lemma TotalFallsExactly(f: Format, objects: seq<Fields>, j: nat)
    requires j < |objects|
    ensures NoteAll(f, ZERO, objects[..j + 1]).modelTokens < NoteAll(f, ZERO, objects[..j]).modelTokens <==>
      Lowers(f, objects, j)
  {
    hide Note, KeyOf, Refunds;
    assert objects[..j + 1][..j] == objects[..j];
    NoteTotal(f, NoteAll(f, ZERO, objects[..j]), objects[j]);
    if KeyOf(f, objects[j]).Some? {
      UsageKeys(f, objects[..j], KeyOf(f, objects[j]).value);
    }
  }

  /** From one point of a series to a later one the token total does not fall, if no object between lowers it. */
  lemma {:induction false} TotalStays(f: Format, objects: seq<Fields>, i: nat, j: nat)
    requires i <= j <= |objects| && forall k | i <= k < j :: !Lowers(f, objects, k)
    ensures NoteAll(f, ZERO, objects[..i]).modelTokens <= NoteAll(f, ZERO, objects[..j]).modelTokens
    decreases j
  {
    hide NoteAll, Lowers;
    if i < j {
      TotalStays(f, objects, i, j - 1);
      TotalFallsExactly(f, objects, j - 1);
    }
  }

  function RefundUsage(): Fields
  {
    [("input_tokens", Number(-1.0)), ("total_tokens", Number(-1.0))]
  }

  /** An event that reports a usage of minus one token in all. */
  function RefundEvent(): Fields
  {
    [("type", Text("assistant")), ("usage", Object(RefundUsage()))]
  }

  lemma RefundEventFields()
    ensures Nested(RefundEvent(), "usage") == Some(RefundUsage()) && TextField(RefundEvent(), ["type"]) == "assistant"
    ensures TextField(RefundEvent(), ["id", "message_id"]) == ""
  {
    hide RefundUsage;
    var event := RefundEvent();
    assert Get(event[1..], "usage") == Some(Object(RefundUsage())) &&
      Get(event, "usage") == Some(Object(RefundUsage()));
    assert Get(event, "type") == Some(Text("assistant"));
    NoId(event);
  }

  /** Such an event is not cumulative and not identified: the token total falls below zero. */
  lemma RefundLowers(f: Format)
    requires f.lower("assistant") == "assistant"
    ensures Lowers(f, [RefundEvent()], 0) && NoteAll(f, ZERO, [RefundEvent()]).modelTokens < 0
  {
    RefundEventFields();
    RefundIsNegative(RefundUsage());
    hide TotalTokens, Get, NoteAll, RefundEvent, RefundUsage, TextField, Nested, UsageKey;
    assert Refunds(f, RefundEvent()) && KeyOf(f, RefundEvent()) == None;
    hide Refunds, KeyOf;
    TotalFallsExactly(f, [RefundEvent()], 0);
    assert [RefundEvent()][..1] == [RefundEvent()] && [RefundEvent()][..0] == [];
    NoNotes(f);
  }

  lemma NoNotes(f: Format)
    ensures NoteAll(f, ZERO, []) == ZERO
  {}

  lemma NoId(event: Fields)
    requires |event| == 2 && event[0].0 == "type" && event[1].0 == "usage"
    ensures TextField(event, ["id", "message_id"]) == ""
  {
    assert event[1..][1..] == [] && Get([], "id") == None && Get([], "message_id") == None;
    assert Get(event[1..], "id") == None && Get(event[1..], "message_id") == None;
    assert Get(event, "id") == None && Get(event, "message_id") == None;
    assert ["id", "message_id"][1..] == ["message_id"];
    assert TextField(event, ["message_id"]) == "";
  }

  lemma RefundIsNegative(usage: Fields)
    requires usage == [("input_tokens", Number(-1.0)), ("total_tokens", Number(-1.0))]
    ensures TotalTokens(usage) == -1
  {
    var rest := usage[1..];
    assert rest == [("total_tokens", Number(-1.0))] && rest[1..] == [];
    assert (1.0).Floor == 1 && Truncated(-1.0) == -1;
    assert Get(usage, "input_tokens") == Some(Number(-1.0));
    assert FirstNumber(usage, INPUT_KEYS) == Some(-1);
    NoneOf(usage, CREATION_KEYS);
    NoneOf(usage, READ_KEYS);
    NoneOf(usage, OUTPUT_KEYS);
    assert Get(rest, "total_tokens") == Some(Number(-1.0)) && Get(usage, "total_tokens") == Some(Number(-1.0));
    assert Get(rest[1..], "model_tokens") == None && Get(rest, "model_tokens") == None &&
      Get(usage, "model_tokens") == None;
    assert TOTAL_KEYS[1..][0] == "total_tokens";
    assert FirstNumber(usage, TOTAL_KEYS[1..]) == Some(-1);
  }

  lemma {:induction false} NoneOf(usage: Fields, keys: seq<string>)
    requires forall i, k | 0 <= i < |usage| && 0 <= k < |keys| :: usage[i].0 != keys[k]
    ensures FirstNumber(usage, keys) == None
  {
    if keys != [] {
      NoField(usage, keys[0]);
      NoneOf(usage, keys[1..]);
    }
  }

  lemma {:induction false} NoField(fields: Fields, key: string)
    requires forall i | 0 <= i < |fields| :: fields[i].0 != key
    ensures Get(fields, key) == None
  {
    if fields != [] {
      NoField(fields[1..], key);
    }
  }
}
