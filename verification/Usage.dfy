/** Capturing an LLM response on its way through, and the token usage read from it. */
module Usage {
  import opened Text

  const MAX_CAPTURE: nat := 8 * 1024 * 1024
  const UINT64: nat := 0x1_0000_0000_0000_0000

  // ---- capturing, write by write ----

  /** What the capture holds after a whole stream. */
  datatype Captured = Captured(payload: string, truncated: bool)

  function Whole(stream: string): (c: Captured)
  {
    if |stream| > MAX_CAPTURE then Captured("", true) else Captured(stream, false)
  }

  function Feed(c: Captured, chunk: string): (r: Captured)
  {
    if c.truncated then c
    else if |c.payload| + |chunk| > MAX_CAPTURE then Captured("", true)
    else Captured(c.payload + chunk, false)
  }

  function FeedAll(c: Captured, chunks: seq<string>): (r: Captured)
    decreases |chunks|
  {
    if chunks == [] then c else FeedAll(Feed(c, chunks[0]), chunks[1..])
  }

  function Concat(chunks: seq<string>): string
  {
    if chunks == [] then "" else chunks[0] + Concat(chunks[1..])
  }

  lemma FeedWhole(stream: string, chunk: string)
    ensures Feed(Whole(stream), chunk) == Whole(stream + chunk)
  {
  }

  /** However a response is split into writes, the capture depends on its bytes alone. */
  lemma {:induction false} SplitIndependent(before: string, chunks: seq<string>)
    ensures FeedAll(Whole(before), chunks) == Whole(before + Concat(chunks))
    decreases |chunks|
  {
    if chunks == [] {
      assert before + "" == before;
    } else {
      FeedWhole(before, chunks[0]);
      SplitIndependent(before + chunks[0], chunks[1..]);
      assert before + (chunks[0] + Concat(chunks[1..])) == (before + chunks[0]) + Concat(chunks[1..]);
    }
  }

  class UsageCapture {
    var payload: string
    var truncated: bool
    ghost var stream: string

    ghost predicate Valid()
      reads this
    {
      Captured(payload, truncated) == Whole(stream)
    }

    constructor ()
      ensures Valid() && stream == ""
    {
      payload, truncated, stream := "", false, "";
    }

    method Write(chunk: string) returns (n: nat)
      requires Valid()
      modifies this
      ensures Valid() && stream == old(stream) + chunk && n == |chunk|
      ensures Captured(payload, truncated) == Feed(old(Captured(payload, truncated)), chunk)
    {
      FeedWhole(stream, chunk);
      stream := stream + chunk;
      n := |chunk|;
      if truncated { return; }
      if |payload| + |chunk| > MAX_CAPTURE {
        truncated := true;
        payload := "";
        return;
      }
      payload := payload + chunk;
    }

    /** In streaming mode the maximum over all data lines, otherwise the usage of the one document. */
    method TokenUsage(streaming: bool, parse: string -> Json) returns (input: nat, output: nat)
      requires Valid()
      ensures |stream| > MAX_CAPTURE || stream == "" ==> input == 0 && output == 0
      ensures |stream| <= MAX_CAPTURE && stream != "" && !streaming ==> Tokens(input, output) == Extract(parse(stream))
      ensures |stream| <= MAX_CAPTURE && stream != "" && streaming ==>
                IsMaximum(Tokens(input, output), DataUsages(Split(stream, '\n'), parse))
    {
      if truncated || |payload| == 0 { return 0, 0; }
      if !streaming {
        var usage := Extract(parse(payload));
        return usage.input, usage.output;
      }
      input, output := 0, 0;
      var lines := Split(payload, '\n');
      for i := 0 to |lines|
        invariant IsMaximum(Tokens(input, output), DataUsages(lines[..i], parse))
      {
        ghost var seen := DataUsages(lines[..i], parse);
        assert lines[..i + 1] == lines[..i] + [lines[i]];
        DataUsagesSnoc(lines[..i], lines[i], parse);
        assert seen + [] == seen;
        var line := TrimSpace(lines[i]);
        if !("data:" <= line) { continue; }
        var data := TrimSpace(TrimPrefix(line, "data:"));
        if data == "" || data == "[DONE]" { continue; }
        var usage := Extract(parse(data));
        MaximumSnoc(Tokens(input, output), seen, usage);
        input, output := Max(input, usage.input), Max(output, usage.output);
      }
      assert lines[..|lines|] == lines;
    }
  }

  // ---- data lines of an event stream ----

  /** The document of a data line, if it carries one. */
  function DataOf(line: string): (r: Option<string>)
  {
    var trimmed := TrimSpace(line);
    if !("data:" <= trimmed) then None
    else
      var data := TrimSpace(TrimPrefix(trimmed, "data:"));
      if data == "" || data == "[DONE]" then None else Some(data)
  }

  /** A line carries a document when, white space aside, it is "data:" and something other than nothing or "[DONE]". */
  lemma DataOfExactly(line: string, data: string)
    ensures DataOf(line) == Some(data) <==>
      data != "" && data != "[DONE]" && exists rest :: TrimSpace(line) == "data:" + rest && TrimSpace(rest) == data
  {
    var trimmed := TrimSpace(line);
    if "data:" <= trimmed {
      var rest := TrimPrefix(trimmed, "data:");
      assert trimmed == "data:" + rest;
      forall other | trimmed == "data:" + other ensures other == rest { assert other == trimmed[5..] && rest == trimmed[5..]; }
    }
  }

  function DataUsages(lines: seq<string>, parse: string -> Json): (r: seq<Tokens>)
  {
    if lines == [] then []
    else
      var data := DataOf(lines[|lines| - 1]);
      DataUsages(lines[..|lines| - 1], parse) + if data.Some? then [Extract(parse(data.value))] else []
  }

  lemma DataUsagesSnoc(lines: seq<string>, line: string, parse: string -> Json)
    ensures DataUsages(lines + [line], parse) ==
      DataUsages(lines, parse) + if DataOf(line).Some? then [Extract(parse(DataOf(line).value))] else []
  {
    assert (lines + [line])[..|lines|] == lines;
  }

  datatype Tokens = Tokens(input: nat, output: nat)

  function Max(a: nat, b: nat): nat { if a >= b then a else b }

  /** Each component bounds all of `all` and is zero or reached. */
  ghost predicate IsMaximum(t: Tokens, all: seq<Tokens>)
  {
    (forall i :: 0 <= i < |all| ==> all[i].input <= t.input && all[i].output <= t.output)
    && (t.input == 0 || exists i :: 0 <= i < |all| && all[i].input == t.input)
    && (t.output == 0 || exists i :: 0 <= i < |all| && all[i].output == t.output)
  }

  lemma MaximumSnoc(t: Tokens, all: seq<Tokens>, x: Tokens)
    requires IsMaximum(t, all)
    ensures IsMaximum(Tokens(Max(t.input, x.input), Max(t.output, x.output)), all + [x])
  {
    var more := all + [x];
    assert more[|all|] == x && forall i :: 0 <= i < |all| ==> more[i] == all[i];
    if t.input != 0 {
      var i :| 0 <= i < |all| && all[i].input == t.input;
      assert more[i].input == t.input;
    }
    if t.output != 0 {
      var i :| 0 <= i < |all| && all[i].output == t.output;
      assert more[i].output == t.output;
    }
  }

  // ---- the usage of one document ----

  /** A decoded document; text that does not parse is `Other`. */
  datatype Json = Object(fields: Fields) | Number(value: int) | Null | Other
  datatype Fields = End | Field(key: string, value: Json, rest: Fields)

  /** The last field with the key wins. */
  function Lookup(fields: Fields, key: string): (r: Option<Json>)
    ensures r.Some? ==> r.value < fields
  {
    match fields
    case End => None
    case Field(k, v, rest) =>
      var later := Lookup(rest, key);
      if later.Some? then later else if k == key then Some(v) else None
  }

  function Member(json: Json, key: string): (r: Option<Json>)
    ensures r.Some? ==> r.value < json
  {
    if json.Object? then Lookup(json.fields, key) else None
  }

  /** Decoding into uint64: null leaves the zero value. */
  function Count(json: Json): (r: Option<nat>)
  {
    match json
    case Null => Some(0)
    case Number(n) => if 0 <= n < UINT64 then Some(n) else None
    case _ => None
  }

  function FirstCount(usage: Json, keys: seq<string>): (r: nat)
  {
    if keys == [] then 0
    else
      var field := Member(usage, keys[0]);
      if field.Some? && Count(field.value).Some? then Count(field.value).value else FirstCount(usage, keys[1..])
  }

  function ParseUsage(usage: Json): (r: Tokens)
  {
    if !usage.Object? then Tokens(0, 0)
    else
      var base := FirstCount(usage, ["input_tokens", "prompt_tokens"]);
      var input := if Member(usage, "input_tokens").Some?
                   then (base + FirstCount(usage, ["cache_creation_input_tokens"])
                         + FirstCount(usage, ["cache_read_input_tokens"])) % UINT64
                   else base;
      Tokens(input, FirstCount(usage, ["output_tokens", "completion_tokens"]))
  }

  function OwnUsage(json: Json): (r: Tokens)
  {
    var usage := Member(json, "usage");
    if usage.Some? then ParseUsage(usage.value) else Tokens(0, 0)
  }

  function Nested(json: Json, key: string): (r: Tokens)
    decreases json, 0
  {
    var inner := Member(json, key);
    if inner.Some? then Extract(inner.value) else Tokens(0, 0)
  }

  function Extract(json: Json): (r: Tokens)
    decreases json, 1
  {
    var own, response, message := OwnUsage(json), Nested(json, "response"), Nested(json, "message");
    Tokens(Max(Max(own.input, response.input), message.input), Max(Max(own.output, response.output), message.output))
  }

  // ---- which fields count ----

  function Pairs(fields: Fields): seq<(string, Json)>
  {
    match fields
    case End => []
    case Field(k, v, rest) => [(k, v)] + Pairs(rest)
  }

  predicate NoKey(pairs: seq<(string, Json)>, key: string)
  {
    forall i :: 0 <= i < |pairs| ==> pairs[i].0 != key
  }

  /** The value of the last field with the key. */
  ghost predicate IsLast(pairs: seq<(string, Json)>, key: string, v: Json)
  {
    exists i :: 0 <= i < |pairs| && pairs[i] == (key, v) && NoKey(pairs[i + 1..], key)
  }

  lemma NoKeyCons(pair: (string, Json), pairs: seq<(string, Json)>, key: string)
    ensures NoKey([pair] + pairs, key) <==> pair.0 != key && NoKey(pairs, key)
  {
    var all := [pair] + pairs;
    assert all[0] == pair;
    forall i | 0 <= i < |pairs| ensures all[i + 1] == pairs[i] {}
    if NoKey(all, key) {
      forall i | 0 <= i < |pairs| ensures pairs[i].0 != key { assert all[i + 1].0 != key; }
    }
  }

  lemma {:induction false} LookupMissing(fields: Fields, key: string)
    ensures Lookup(fields, key).None? <==> NoKey(Pairs(fields), key)
  {
    match fields {
      case End =>
      case Field(k, v, rest) =>
        LookupMissing(rest, key);
        NoKeyCons((k, v), Pairs(rest), key);
    }
  }

  /** Of several fields with one key the last counts. */
  lemma {:induction false} LookupExactly(fields: Fields, key: string)
    ensures var found := Lookup(fields, key); found.Some? ==> IsLast(Pairs(fields), key, found.value)
  {
    match fields {
      case End =>
      case Field(k, w, rest) =>
        LookupExactly(rest, key);
        LookupMissing(rest, key);
        var all, tail := Pairs(fields), Pairs(rest);
        if Lookup(rest, key).Some? {
          var v := Lookup(rest, key).value;
          var i :| 0 <= i < |tail| && tail[i] == (key, v) && NoKey(tail[i + 1..], key);
          assert all[i + 1] == (key, v) && all[i + 2..] == tail[i + 1..];
        } else if k == key {
          assert all[0] == (key, w) && all[1..] == tail;
        }
    }
  }

  /** The number in a field, if the field is there and holds one. */
  function NumberIn(usage: Json, key: string): Option<nat>
  {
    var field := Member(usage, key);
    if field.None? then None
    else if field.value.Null? then Some(0)
    else if field.value.Number? && 0 <= field.value.value < 0x1_0000_0000_0000_0000 then Some(field.value.value)
    else None
  }

  function OrZero(n: Option<nat>): nat { if n.Some? then n.value else 0 }

  /** The tokens of a document's own usage, field by field: `input_tokens` before `prompt_tokens`, `output_tokens` before
      `completion_tokens`, and the cache tokens on top of the input when there is an `input_tokens` field at all. */
  lemma OwnUsageFields(json: Json)
    ensures var usage := Member(json, "usage");
      if usage.None? || !usage.value.Object? then OwnUsage(json) == Tokens(0, 0)
      else
        var u := usage.value;
        var input, prompt := NumberIn(u, "input_tokens"), NumberIn(u, "prompt_tokens");
        var output, completion := NumberIn(u, "output_tokens"), NumberIn(u, "completion_tokens");
        var base := if input.Some? then input.value else OrZero(prompt);
        var cache := OrZero(NumberIn(u, "cache_creation_input_tokens")) + OrZero(NumberIn(u, "cache_read_input_tokens"));
        OwnUsage(json).output == (if output.Some? then output.value else OrZero(completion))
        && OwnUsage(json).input == if Member(u, "input_tokens").Some? then (base + cache) % 0x1_0000_0000_0000_0000 else base
  {
    var usage := Member(json, "usage");
    if usage.Some? {
      OneKey(usage.value, "cache_creation_input_tokens");
      OneKey(usage.value, "cache_read_input_tokens");
      TwoKeys(usage.value, "input_tokens", "prompt_tokens");
      TwoKeys(usage.value, "output_tokens", "completion_tokens");
    }
  }

  lemma OneKey(usage: Json, key: string)
    ensures FirstCount(usage, [key]) == OrZero(NumberIn(usage, key))
  {
    assert [key][1..] == [];
    assert FirstCount(usage, []) == 0;
  }

  lemma TwoKeys(usage: Json, key: string, other: string)
    ensures FirstCount(usage, [key, other]) ==
      if NumberIn(usage, key).Some? then NumberIn(usage, key).value else OrZero(NumberIn(usage, other))
  {
    assert [key, other][1..] == [other];
    OneKey(usage, other);
  }

  /** The document reached by going through `response` and `message` members. */
  function Follow(json: Json, path: seq<string>): (r: Option<Json>)
    decreases |path|
  {
    if path == [] then Some(json)
    else
      var inner := Member(json, path[0]);
      if inner.Some? then Follow(inner.value, path[1..]) else None
  }

  predicate Wrapping(path: seq<string>)
  {
    forall i :: 0 <= i < |path| ==> path[i] == "response" || path[i] == "message"
  }

  /** The extracted usage bounds the usage found at every nesting ... */
  lemma {:induction false} ExtractBounds(json: Json, path: seq<string>)
    requires Wrapping(path) && Follow(json, path).Some?
    ensures OwnUsage(Follow(json, path).value).input <= Extract(json).input
    ensures OwnUsage(Follow(json, path).value).output <= Extract(json).output
    decreases |path|
  {
    if path != [] {
      var inner := Member(json, path[0]).value;
      ExtractBounds(inner, path[1..]);
      assert Nested(json, path[0]) == Extract(inner);
    }
  }

  /** ... and each component is the usage at one of them. */
  lemma {:induction false} ExtractReached(json: Json, wantInput: bool) returns (path: seq<string>)
    ensures Wrapping(path) && Follow(json, path).Some?
    ensures wantInput ==> OwnUsage(Follow(json, path).value).input == Extract(json).input
    ensures !wantInput ==> OwnUsage(Follow(json, path).value).output == Extract(json).output
    decreases json
  {
    var own, total := OwnUsage(json), Extract(json);
    if (if wantInput then own.input == total.input else own.output == total.output) {
      return [];
    }
    var response := Nested(json, "response");
    var key := if (if wantInput then response.input == total.input else response.output == total.output)
               then "response" else "message";
    var message := Nested(json, "message");
    assert total.input == Max(Max(own.input, response.input), message.input)
      && total.output == Max(Max(own.output, response.output), message.output);
    assert Member(json, key).Some?;
    var inner := Member(json, key).value;
    var rest := ExtractReached(inner, wantInput);
    path := [key] + rest;
    assert path[1..] == rest;
  }
}
