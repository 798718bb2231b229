/** `addChat` of pact_backend/routers/chat.py: a nested chat request is
    flattened into one record, then inserted as a new chat or written over
    an existing one, against the `history` and `chat` collections. */
module ChatRouter {
  import opened PyBuiltins
  import opened ChatModels

  // ---------------------------------------------------------------------
  // Flattening

  /** A flat document: field name to value. */
  type Record = map<string, Value>

  /** The inner loop: every entry of a nested dict, under `prefix + key`. */
  function Spread(acc: Record, prefix: string, entries: seq<(string, Value)>): Record
    decreases |entries|
  {
    if entries == [] then acc
    else Spread(acc[prefix + entries[0].0 := entries[0].1], prefix, entries[1..])
  }

  /** The two keys whose values are spread rather than copied. */
  predicate IsNested(key: string) {
    key == "prompt_metrics" || key == "opt_prompt_metrics"
  }

  /** The request dict nests a dict under each of the two metrics keys. */
  predicate NestedAreDicts(body: seq<(string, Value)>) {
    forall i :: 0 <= i < |body| && IsNested(body[i].0) ==> body[i].1.VDict?
  }

  /** One round of the outer loop: spread a metrics dict, with the `opt_`
      prefix on the optimised side, or copy the entry. */
  function FlattenEntry(acc: Record, e: (string, Value)): Record
    requires IsNested(e.0) ==> e.1.VDict?
  {
    if e.0 == "prompt_metrics" then Spread(acc, "", e.1.entries)
    else if e.0 == "opt_prompt_metrics" then Spread(acc, "opt_", e.1.entries)
    else acc[e.0 := e.1]
  }

  /** The outer loop from `acc` over the remaining entries. */
  function FlattenInto(acc: Record, body: seq<(string, Value)>): Record
    requires NestedAreDicts(body)
    decreases |body|
  {
    if body == [] then acc
    else FlattenInto(FlattenEntry(acc, body[0]), body[1..])
  }

  /** `body_data` after the nested loop over `body.dict()`. */
  function Flatten(body: seq<(string, Value)>): Record
    requires NestedAreDicts(body)
  {
    FlattenInto(map[], body)
  }

  /** The nested loop of `addChat`, filling `body_data` one key at a time. */
  method FlattenBody(body: seq<(string, Value)>) returns (flat: Record)
    requires NestedAreDicts(body)
    ensures flat == Flatten(body)
  {
    flat := map[];
    var i := 0;
    while i < |body|
      invariant 0 <= i <= |body|
      invariant FlattenInto(flat, body[i..]) == Flatten(body)
    {
      var (key, value) := body[i];
      assert body[i..][1..] == body[i + 1..];
      if key == "prompt_metrics" || key == "opt_prompt_metrics" {
        var prefix := if key == "prompt_metrics" then "" else "opt_";
        var entries := value.entries;
        var j := 0;
        ghost var start := flat;
        while j < |entries|
          invariant 0 <= j <= |entries|
          invariant Spread(flat, prefix, entries[j..]) == Spread(start, prefix, entries)
        {
          assert entries[j..][1..] == entries[j + 1..];
          flat := flat[prefix + entries[j].0 := entries[j].1];
          j := j + 1;
        }
      } else {
        flat := flat[key := value];
      }
      i := i + 1;
    }
  }

  /** The keys the inner loop leaves: those it started with and every
      entry's key behind the prefix. */
  lemma {:induction false} SpreadKeys(acc: Record, prefix: string, es: seq<(string, Value)>)
    ensures Spread(acc, prefix, es).Keys == acc.Keys + (set i | 0 <= i < |es| :: prefix + es[i].0)
    decreases |es|
  {
    if es != [] {
      var rest := es[1..];
      SpreadKeys(acc[prefix + es[0].0 := es[0].1], prefix, rest);
      var later := set i | 0 <= i < |rest| :: prefix + rest[i].0;
      var all := set i | 0 <= i < |es| :: prefix + es[i].0;
      assert all == {prefix + es[0].0} + later by {
        forall key | key in all ensures key in {prefix + es[0].0} + later {
          var i :| 0 <= i < |es| && key == prefix + es[i].0;
          if i > 0 {
            assert rest[i - 1] == es[i];
          }
        }
        forall key | key in later ensures key in all {
          var i :| 0 <= i < |rest| && key == prefix + rest[i].0;
          assert rest[i] == es[i + 1];
        }
      }
    }
  }

  /** A key the inner loop never writes keeps its value. */
  lemma {:induction false} SpreadKeeps(acc: Record, prefix: string, es: seq<(string, Value)>, key: string)
    requires key in acc && forall i :: 0 <= i < |es| ==> key != prefix + es[i].0
    ensures key in Spread(acc, prefix, es) && Spread(acc, prefix, es)[key] == acc[key]
    decreases |es|
  {
    if es != [] {
      var rest := es[1..];
      forall i | 0 <= i < |rest| ensures key != prefix + rest[i].0 {
        assert rest[i] == es[i + 1];
      }
      SpreadKeeps(acc[prefix + es[0].0 := es[0].1], prefix, rest, key);
    }
  }

  /** For entries with distinct keys, each key behind the prefix ends up
      holding its entry's value. */
  lemma {:induction false} SpreadWrites(acc: Record, prefix: string, es: seq<(string, Value)>, i: nat)
    requires forall i, j :: 0 <= i < j < |es| ==> es[i].0 != es[j].0
    requires i < |es|
    ensures prefix + es[i].0 in Spread(acc, prefix, es) && Spread(acc, prefix, es)[prefix + es[i].0] == es[i].1
    decreases |es|
  {
    var acc' := acc[prefix + es[0].0 := es[0].1];
    var rest := es[1..];
    assert forall a, b :: 0 <= a < b < |rest| ==> rest[a].0 != rest[b].0 by {
      forall a, b | 0 <= a < b < |rest| ensures rest[a].0 != rest[b].0 {
        assert rest[a] == es[a + 1] && rest[b] == es[b + 1];
      }
    }
    if i == 0 {
      forall j | 0 <= j < |rest| ensures prefix + es[0].0 != prefix + rest[j].0 {
        assert rest[j] == es[j + 1];
        assert (prefix + es[0].0)[|prefix|..] == es[0].0;
        assert (prefix + rest[j].0)[|prefix|..] == rest[j].0;
      }
      SpreadKeeps(acc', prefix, rest, prefix + es[0].0);
    } else {
      assert rest[i - 1] == es[i];
      SpreadWrites(acc', prefix, rest, i - 1);
    }
  }

  /** The metric names are pairwise distinct. */
  lemma MetricsDictKeysDistinct(m: MetricsModel)
    ensures forall i, j :: 0 <= i < j < |MetricsDict(m)| ==> MetricsDict(m)[i].0 != MetricsDict(m)[j].0
  {
    forall i, j | 0 <= i < j < |MetricKeys| ensures Name(MetricKeys[i]) != Name(MetricKeys[j]) {
      NameInjective(MetricKeys[i], MetricKeys[j]);
      IndexOfKey(i);
      IndexOfKey(j);
    }
  }

  /** Spreading a metrics dict adds exactly its names behind the prefix,
      each with the record's value, and keeps every other key. */
  lemma SpreadMetrics(acc: Record, prefix: string, m: MetricsModel)
    ensures Spread(acc, prefix, MetricsDict(m)).Keys == acc.Keys + PrefixedNames(prefix)
    ensures forall k :: prefix + Name(k) in PrefixedNames(prefix)
    ensures forall k :: Spread(acc, prefix, MetricsDict(m))[prefix + Name(k)] == Field(m, k)
    ensures forall key :: key in acc && key !in PrefixedNames(prefix) ==> Spread(acc, prefix, MetricsDict(m))[key] == acc[key]
  {
    var es := MetricsDict(m);
    MetricsDictKeysDistinct(m);
    SpreadKeys(acc, prefix, es);
    assert (set i | 0 <= i < |es| :: prefix + es[i].0) == PrefixedNames(prefix);
    forall k
      ensures prefix + Name(k) in PrefixedNames(prefix)
      ensures Spread(acc, prefix, es)[prefix + Name(k)] == Field(m, k)
    {
      var i := Index(k);
      assert es[i] == (Name(k), Field(m, k));
      SpreadWrites(acc, prefix, es, i);
    }
    forall key | key in acc && key !in PrefixedNames(prefix)
      ensures Spread(acc, prefix, es)[key] == acc[key]
    {
      SpreadKeeps(acc, prefix, es, key);
    }
  }

  /** The six plain fields, as the first six rounds of the outer loop leave
      them. */
  function TopFields(r: ChatRequest): Record {
    map["history_id" := VStr(r.historyId), "chat_id" := ChatIdValue(r.chatId),
        "prompt" := VStr(r.prompt), "opt_prompt" := VStr(r.optPrompt),
        "response" := VStr(r.response), "opt_response" := VStr(r.optResponse)]
  }

  /** One round of the outer loop on an entry that is copied. */
  lemma CopyStep(acc: Record, body: seq<(string, Value)>, i: nat)
    requires NestedAreDicts(body) && i < |body| && !IsNested(body[i].0)
    ensures FlattenInto(acc, body[i..]) == FlattenInto(acc[body[i].0 := body[i].1], body[i + 1..])
  {
    assert body[i..][1..] == body[i + 1..];
  }

  /** One round of the outer loop on an entry that is spread. */
  lemma SpreadStep(acc: Record, body: seq<(string, Value)>, i: nat, prefix: string)
    requires NestedAreDicts(body) && i < |body|
    requires (body[i].0 == "prompt_metrics" && prefix == "") || (body[i].0 == "opt_prompt_metrics" && prefix == "opt_")
    ensures FlattenInto(acc, body[i..]) == FlattenInto(Spread(acc, prefix, body[i].1.entries), body[i + 1..])
  {
    assert body[i..][1..] == body[i + 1..];
  }

  /** The first three rounds of the outer loop over a request. */
  lemma FirstCopies(r: ChatRequest)
    ensures NestedAreDicts(RequestDict(r))
    ensures FlattenInto(map[], RequestDict(r)) ==
              FlattenInto(map["history_id" := VStr(r.historyId), "chat_id" := ChatIdValue(r.chatId),
                              "prompt" := VStr(r.prompt)], RequestDict(r)[3..])
  {
    var b := RequestDict(r);
    var m0 := map["history_id" := VStr(r.historyId)];
    var m1 := m0["chat_id" := ChatIdValue(r.chatId)];
    assert b[0..] == b;
    CopyStep(map[], b, 0);
    CopyStep(m0, b, 1);
    CopyStep(m1, b, 2);
  }

  /** The next three rounds, which complete the plain fields. */
  lemma LaterCopies(r: ChatRequest)
    ensures NestedAreDicts(RequestDict(r))
    ensures FlattenInto(map["history_id" := VStr(r.historyId), "chat_id" := ChatIdValue(r.chatId),
                            "prompt" := VStr(r.prompt)], RequestDict(r)[3..]) ==
              FlattenInto(TopFields(r), RequestDict(r)[6..])
  {
    var b := RequestDict(r);
    var m2 := map["history_id" := VStr(r.historyId), "chat_id" := ChatIdValue(r.chatId), "prompt" := VStr(r.prompt)];
    var m3 := m2["opt_prompt" := VStr(r.optPrompt)];
    var m4 := m3["response" := VStr(r.response)];
    CopyStep(m2, b, 3);
    CopyStep(m3, b, 4);
    CopyStep(m4, b, 5);
  }

  /** The last two rounds: the two spreads. */
  lemma Spreads(r: ChatRequest)
    ensures NestedAreDicts(RequestDict(r))
    ensures FlattenInto(TopFields(r), RequestDict(r)[6..]) ==
              Spread(Spread(TopFields(r), "", MetricsDict(r.promptMetrics)), "opt_", MetricsDict(r.optPromptMetrics))
  {
    var b := RequestDict(r);
    var m6 := Spread(TopFields(r), "", MetricsDict(r.promptMetrics));
    SpreadStep(TopFields(r), b, 6, "");
    SpreadStep(m6, b, 7, "opt_");
  }

  /** The outer loop over a request: six plain entries, then the two
      spreads. */
  lemma FlattenRequestSteps(r: ChatRequest)
    ensures NestedAreDicts(RequestDict(r))
    ensures Flatten(RequestDict(r)) ==
              Spread(Spread(TopFields(r), "", MetricsDict(r.promptMetrics)), "opt_", MetricsDict(r.optPromptMetrics))
  {
    FirstCopies(r);
    LaterCopies(r);
    Spreads(r);
  }

  /** No plain key of the request is also a spread name. */
  lemma PlainKeysNotSpread(key: string)
    requires key in {"history_id", "chat_id", "prompt", "opt_prompt", "response", "opt_response"}
    ensures key !in PrefixedNames("") && key !in PrefixedNames("opt_")
  {
    forall i | 0 <= i < |MetricKeys|
      ensures key != "" + Name(MetricKeys[i]) && key != "opt_" + Name(MetricKeys[i])
    {
      var n := Name(MetricKeys[i]);
      assert "" + n == n;
      assert ("opt_" + n)[4..] == n;
      assert ("opt_" + n)[0] == 'o';
    }
  }

  /** The plain fields survive both spreads unchanged. */
  lemma PlainSurvives(top: Record, pm: MetricsModel, om: MetricsModel, key: string)
    requires key in top && key !in PrefixedNames("") && key !in PrefixedNames("opt_")
    ensures key in Spread(Spread(top, "", MetricsDict(pm)), "opt_", MetricsDict(om))
    ensures Spread(Spread(top, "", MetricsDict(pm)), "opt_", MetricsDict(om))[key] == top[key]
  {
    SpreadMetrics(top, "", pm);
    SpreadMetrics(Spread(top, "", MetricsDict(pm)), "opt_", om);
  }

  /** The original metrics land under their own names and survive the
      second spread. */
  lemma PlainMetricsSurvive(top: Record, pm: MetricsModel, om: MetricsModel, k: MetricKey)
    ensures Name(k) in Spread(Spread(top, "", MetricsDict(pm)), "opt_", MetricsDict(om))
    ensures Spread(Spread(top, "", MetricsDict(pm)), "opt_", MetricsDict(om))[Name(k)] == Field(pm, k)
  {
    var a := Spread(top, "", MetricsDict(pm));
    SpreadMetrics(top, "", pm);
    assert "" + Name(k) == Name(k);
    OptNamesAreLonger(k);
    SpreadMetrics(a, "opt_", om);
  }

  /** The optimised metrics land behind `opt_`. */
  lemma OptMetricsLand(top: Record, pm: MetricsModel, om: MetricsModel, k: MetricKey)
    ensures "opt_" + Name(k) in Spread(Spread(top, "", MetricsDict(pm)), "opt_", MetricsDict(om))
    ensures Spread(Spread(top, "", MetricsDict(pm)), "opt_", MetricsDict(om))["opt_" + Name(k)] == Field(om, k)
  {
    SpreadMetrics(Spread(top, "", MetricsDict(pm)), "opt_", om);
  }

  /** The six plain keys of a request. */
  lemma TopKeys(r: ChatRequest)
    ensures TopFields(r).Keys == TextChatFields + {"chat_id"}
  {
  }

  /** The keys of the flattened request: the fields of `ChatModel` other
      than `created_at`, and `chat_id`. */
  lemma FlattenedKeys(r: ChatRequest)
    ensures NestedAreDicts(RequestDict(r))
    ensures Flatten(RequestDict(r)).Keys == ChatFields + {"chat_id"}
  {
    FlattenRequestSteps(r);
    var top := TopFields(r);
    SpreadMetrics(top, "", r.promptMetrics);
    SpreadMetrics(Spread(top, "", MetricsDict(r.promptMetrics)), "opt_", r.optPromptMetrics);
    TopKeys(r);
    AddedLast(TextChatFields, {"chat_id"}, PrefixedNames(""), PrefixedNames("opt_"));
  }

  /** Set union does not care when the extra key is added. */
  lemma AddedLast(a: set<string>, extra: set<string>, b: set<string>, c: set<string>)
    ensures a + extra + b + c == a + b + c + extra
  {
  }

  /** A plain field of the flattened request holds the request's value. */
  lemma FlattenedPlain(r: ChatRequest, key: string)
    requires key in {"history_id", "chat_id", "prompt", "opt_prompt", "response", "opt_response"}
    ensures NestedAreDicts(RequestDict(r))
    ensures key in Flatten(RequestDict(r)) && Flatten(RequestDict(r))[key] == TopFields(r)[key]
  {
    FlattenRequestSteps(r);
    PlainKeysNotSpread(key);
    PlainSurvives(TopFields(r), r.promptMetrics, r.optPromptMetrics, key);
  }

  /** The flattened request holds the original metrics under their own
      names and the optimised metrics behind `opt_`. */
  lemma FlattenedMetrics(r: ChatRequest)
    ensures NestedAreDicts(RequestDict(r))
    ensures forall k :: Name(k) in Flatten(RequestDict(r)) && Flatten(RequestDict(r))[Name(k)] == Field(r.promptMetrics, k)
    ensures forall k :: "opt_" + Name(k) in Flatten(RequestDict(r)) &&
                        Flatten(RequestDict(r))["opt_" + Name(k)] == Field(r.optPromptMetrics, k)
  {
    FlattenRequestSteps(r);
    forall k ensures Name(k) in Flatten(RequestDict(r)) && Flatten(RequestDict(r))[Name(k)] == Field(r.promptMetrics, k) {
      PlainMetricsSurvive(TopFields(r), r.promptMetrics, r.optPromptMetrics, k);
    }
    forall k ensures "opt_" + Name(k) in Flatten(RequestDict(r)) &&
                     Flatten(RequestDict(r))["opt_" + Name(k)] == Field(r.optPromptMetrics, k) {
      OptMetricsLand(TopFields(r), r.promptMetrics, r.optPromptMetrics, k);
    }
  }

  /** A metric name never carries the `opt_` prefix itself. */
  lemma OptNamesAreLonger(k: MetricKey)
    ensures Name(k) !in PrefixedNames("opt_")
  {
    forall i | 0 <= i < |MetricKeys| ensures Name(k) != "opt_" + Name(MetricKeys[i]) {
      var n := Name(MetricKeys[i]);
      assert ("opt_" + n)[0] == 'o';
      assert Name(k)[0] != 'o';
    }
  }

  /** The record `addChat` stores: `body_data` with `chat_id` deleted,
      which leaves exactly the fields of `ChatModel` but `created_at`. */
  function ChatRecord(r: ChatRequest): (rec: Record)
    ensures rec.Keys == ChatFields
  {
    FlattenedKeys(r);
    PlainKeysNotSpread("chat_id");
    Flatten(RequestDict(r)) - {"chat_id"}
  }

  /** The stored record holds the request's text fields. */
  lemma ChatRecordText(r: ChatRequest)
    ensures ChatRecord(r)["history_id"] == VStr(r.historyId)
    ensures ChatRecord(r)["prompt"] == VStr(r.prompt) && ChatRecord(r)["opt_prompt"] == VStr(r.optPrompt)
    ensures ChatRecord(r)["response"] == VStr(r.response) && ChatRecord(r)["opt_response"] == VStr(r.optResponse)
  {
    FlattenedPlain(r, "history_id");
    FlattenedPlain(r, "prompt");
    FlattenedPlain(r, "opt_prompt");
    FlattenedPlain(r, "response");
    FlattenedPlain(r, "opt_response");
  }

  /** The stored record holds the original metrics under their own names
      and the optimised metrics behind `opt_`. */
  lemma ChatRecordMetrics(r: ChatRequest)
    ensures forall k :: Name(k) in ChatRecord(r) && ChatRecord(r)[Name(k)] == Field(r.promptMetrics, k)
    ensures forall k :: "opt_" + Name(k) in ChatRecord(r) && ChatRecord(r)["opt_" + Name(k)] == Field(r.optPromptMetrics, k)
  {
    forall k
      ensures Name(k) in ChatRecord(r) && ChatRecord(r)[Name(k)] == Field(r.promptMetrics, k)
      ensures "opt_" + Name(k) in ChatRecord(r) && ChatRecord(r)["opt_" + Name(k)] == Field(r.optPromptMetrics, k)
    {
      ChatRecordMetricAt(r, k);
    }
  }

  /** One metric of the stored record, on both sides. */
  lemma ChatRecordMetricAt(r: ChatRequest, k: MetricKey)
    ensures Name(k) in ChatRecord(r) && ChatRecord(r)[Name(k)] == Field(r.promptMetrics, k)
    ensures "opt_" + Name(k) in ChatRecord(r) && ChatRecord(r)["opt_" + Name(k)] == Field(r.optPromptMetrics, k)
  {
    FlattenRequestSteps(r);
    PlainMetricsSurvive(TopFields(r), r.promptMetrics, r.optPromptMetrics, k);
    OptMetricsLand(TopFields(r), r.promptMetrics, r.optPromptMetrics, k);
    NoMetricIsChatId(k);
  }

  /** `chat_id` is not a metric name on either side. */
  lemma NoMetricIsChatId(k: MetricKey)
    ensures Name(k) != "chat_id" && "opt_" + Name(k) != "chat_id"
  {
    PlainKeysNotSpread("chat_id");
    assert "" + Name(MetricKeys[Index(k)]) in PrefixedNames("");
    assert "opt_" + Name(MetricKeys[Index(k)]) in PrefixedNames("opt_");
    assert "" + Name(k) == Name(k);
  }

  // ---------------------------------------------------------------------
  // ObjectId

  predicate IsHexDigit(c: char) {
    '0' <= c <= '9' || 'a' <= c <= 'f' || 'A' <= c <= 'F'
  }

  /** `ObjectId(s)` accepts a string of 24 hex digits and raises otherwise. */
  predicate IsObjectId(s: string) {
    |s| == 24 && forall i :: 0 <= i < |s| ==> IsHexDigit(s[i])
  }

  function LowerHex(c: char): char {
    if 'A' <= c <= 'F' then (c as int + 32) as char else c
  }

  /** The id an accepted string denotes: hex digits in either case name the
      same twelve bytes. */
  function Canon(s: string): (r: string)
    ensures |r| == |s|
    ensures forall i :: 0 <= i < |s| ==> r[i] == LowerHex(s[i])
  {
    seq(|s|, i requires 0 <= i < |s| => LowerHex(s[i]))
  }

  // ---------------------------------------------------------------------
  // The collections

  /** A stored chat: its fields, and `created_at` (None where the stored
      document lacks it). */
  datatype ChatDoc = ChatDoc(fields: Record, createdAt: Option<int>)

  /** An HTTP reply: status code and `message`. */
  datatype Reply = Reply(status: int, message: string)

  const ConversationNotFound := Reply(404, "Conversation not found")
  const ChatNotFound := Reply(404, "Chat not found")
  const ChatAdded := Reply(200, "Chat added successfully")
  const ChatUpdated := Reply(200, "Chat updated successfully")
  /** Any exception; the exception's own text is not modelled. */
  const ServerError := Reply(500, "Internal server error")

  /** A chat id that `if not chat_id` treats as absent. */
  predicate NoChatId(c: Option<string>) {
    c.None? || c.value == ""
  }

  /** The reply of `addChat` and the chat collection it leaves.
      `histories` holds the ids of the stored conversations and `chats` the
      stored chats, both by canonical id; `now` is the clock reading
      `created_at` defaults to and `newId` the id the insert is given. */
  function AddChatResult(histories: set<string>, chats: map<string, ChatDoc>, r: ChatRequest,
                         now: int, newId: string): (Reply, map<string, ChatDoc>)
  {
    var record := ChatRecord(r);
    if !IsObjectId(r.historyId) then (ServerError, chats)
    else if Canon(r.historyId) !in histories then (ConversationNotFound, chats)
    else if NoChatId(r.chatId) then
      if newId in chats then (ServerError, chats)
      else (ChatAdded, chats[newId := ChatDoc(record, Some(now))])
    else if !IsObjectId(r.chatId.value) then (ServerError, chats)
    else if Canon(r.chatId.value) !in chats then (ChatNotFound, chats)
    else
      var prev := chats[Canon(r.chatId.value)];
      if prev.createdAt.None? then (ServerError, chats)
      else (ChatUpdated, chats[Canon(r.chatId.value) := ChatDoc(prev.fields + record, prev.createdAt)])
  }

  /** The `history` and `chat` collections. */
  class ChatStore {
    var histories: set<string>
    var chats: map<string, ChatDoc>

    constructor (histories: set<string>, chats: map<string, ChatDoc>)
      ensures this.histories == histories && this.chats == chats
    {
      this.histories := histories;
      this.chats := chats;
    }

    /** `addChat`: flatten, find the conversation, then insert a new chat or
        overwrite the named one keeping its `created_at`. */
    method AddChat(r: ChatRequest, now: int, newId: string) returns (reply: Reply)
      requires IsObjectId(newId) && Canon(newId) == newId
      modifies this
      ensures (reply, chats) == AddChatResult(old(histories), old(chats), r, now, newId)
      ensures histories == old(histories)
    {
      FlattenedKeys(r);
      FlattenedPlain(r, "history_id");
      FlattenedPlain(r, "chat_id");
      var body := RequestDict(r);
      var bodyData := FlattenBody(body);
      var historyId := bodyData["history_id"].s;
      if !IsObjectId(historyId) {
        return ServerError;
      }
      if Canon(historyId) !in histories {
        return ConversationNotFound;
      }
      var chatId := bodyData["chat_id"];
      bodyData := bodyData - {"chat_id"};
      if chatId == VNone || chatId == VStr("") {
        if newId in chats {
          return ServerError;
        }
        chats := chats[newId := ChatDoc(bodyData, Some(now))];
        return ChatAdded;
      }
      var id := chatId.s;
      if !IsObjectId(id) {
        return ServerError;
      }
      var key := Canon(id);
      if key !in chats {
        return ChatNotFound;
      }
      var createdAt := chats[key].createdAt;
      if createdAt.None? {
        return ServerError;
      }
      chats := chats[key := ChatDoc(chats[key].fields + bodyData, createdAt)];
      reply := ChatUpdated;
    }
  }

  // ---------------------------------------------------------------------
  // Properties of addChat

  /** Only the two success replies write; every 404 and 500 leaves the chat
      collection as it was. */
  lemma ErrorsWriteNothing(histories: set<string>, chats: map<string, ChatDoc>, r: ChatRequest, now: int, newId: string)
    ensures AddChatResult(histories, chats, r, now, newId).0.status != 200 ==>
              AddChatResult(histories, chats, r, now, newId).1 == chats
    ensures AddChatResult(histories, chats, r, now, newId).0.status in {200, 404, 500}
  {
  }

  /** An unknown conversation is a 404 whatever the chat id says. */
  lemma UnknownConversation(histories: set<string>, chats: map<string, ChatDoc>, r: ChatRequest, now: int, newId: string)
    requires IsObjectId(r.historyId) && Canon(r.historyId) !in histories
    ensures AddChatResult(histories, chats, r, now, newId) == (ConversationNotFound, chats)
  {
  }

  /** With a known conversation and no chat id (None or ""), a new chat is
      added holding exactly the `ChatModel` fields, stamped with `now`. */
  lemma InsertsNewChat(histories: set<string>, chats: map<string, ChatDoc>, r: ChatRequest, now: int, newId: string)
    requires IsObjectId(r.historyId) && Canon(r.historyId) in histories
    requires NoChatId(r.chatId) && newId !in chats
    ensures AddChatResult(histories, chats, r, now, newId).0 == ChatAdded
    ensures var chats' := AddChatResult(histories, chats, r, now, newId).1;
            chats'.Keys == chats.Keys + {newId} &&
            chats'[newId].fields == ChatRecord(r) && chats'[newId].fields.Keys == ChatFields &&
            chats'[newId].createdAt == Some(now) &&
            forall id :: id in chats ==> chats'[id] == chats[id]
  {
  }

  /** A well-formed chat id naming no stored chat is a 404. */
  lemma UnknownChat(histories: set<string>, chats: map<string, ChatDoc>, r: ChatRequest, now: int, newId: string)
    requires IsObjectId(r.historyId) && Canon(r.historyId) in histories
    requires !NoChatId(r.chatId) && IsObjectId(r.chatId.value) && Canon(r.chatId.value) !in chats
    ensures AddChatResult(histories, chats, r, now, newId) == (ChatNotFound, chats)
  {
  }

  /** An update keeps the stored `created_at`, gives every `ChatModel` field
      the request's value, keeps any other stored field, and touches no other
      chat. */
  lemma UpdateKeepsCreatedAt(histories: set<string>, chats: map<string, ChatDoc>, r: ChatRequest, now: int, newId: string)
    requires AddChatResult(histories, chats, r, now, newId).0 == ChatUpdated
    ensures r.chatId.Some? && Canon(r.chatId.value) in chats
    ensures var id := Canon(r.chatId.value);
            var chats' := AddChatResult(histories, chats, r, now, newId).1;
            && chats'.Keys == chats.Keys
            && chats'[id].createdAt == chats[id].createdAt
            && chats'[id].fields.Keys == chats[id].fields.Keys + ChatFields
            && (forall f :: f in ChatFields ==> chats'[id].fields[f] == ChatRecord(r)[f])
            && (forall f :: f in chats[id].fields && f !in ChatFields ==> chats'[id].fields[f] == chats[id].fields[f])
            && (forall other :: other in chats && other != id ==> chats'[other] == chats[other])
  {
  }

  /** The update does not check that the chat belongs to the conversation
      named in the request: its `history_id` becomes the request's. */
  lemma UpdateRehomesChat(histories: set<string>, chats: map<string, ChatDoc>, r: ChatRequest, now: int, newId: string)
    requires AddChatResult(histories, chats, r, now, newId).0 == ChatUpdated
    ensures r.chatId.Some? && Canon(r.chatId.value) in AddChatResult(histories, chats, r, now, newId).1
    ensures AddChatResult(histories, chats, r, now, newId).1[Canon(r.chatId.value)].fields["history_id"] == VStr(r.historyId)
  {
    ChatRecordText(r);
  }

  /** Hex case does not matter: an upper-case chat id finds the chat stored
      under its lower-case spelling, which denotes the same bytes. */
  lemma ChatIdCaseInsensitive(s: string)
    requires IsObjectId(s)
    ensures IsObjectId(Canon(s)) && Canon(Canon(s)) == Canon(s)
    ensures HexValue(Canon(s)) == HexValue(s)
  {
    SameKeyIffSameValue(s, Canon(s));
  }

  /** The value of one hex digit, in either case. */
  function HexDigitValue(c: char): (v: nat)
    requires IsHexDigit(c)
    ensures v < 16
  {
    if '0' <= c <= '9' then c as int - '0' as int
    else if 'a' <= c <= 'f' then c as int - 'a' as int + 10
    else c as int - 'A' as int + 10
  }

  /** The number a string of hex digits spells; for an `ObjectId`, the
      twelve bytes it keeps. */
  function HexValue(s: string): nat
    requires forall i :: 0 <= i < |s| ==> IsHexDigit(s[i])
    decreases |s|
  {
    if s == [] then 0 else 16 * HexValue(s[..|s| - 1]) + HexDigitValue(s[|s| - 1])
  }

  /** Two hex digits have the same value exactly when they agree once
      lower-cased. */
  lemma DigitValueIffLower(c: char, d: char)
    requires IsHexDigit(c) && IsHexDigit(d)
    ensures HexDigitValue(c) == HexDigitValue(d) <==> LowerHex(c) == LowerHex(d)
  {
  }

  /** A last base-16 digit and the number before it are recovered from
      their sum. */
  lemma LastDigitUnique(a: nat, b: nat, d: nat, e: nat)
    requires d < 16 && e < 16
    ensures 16 * a + d == 16 * b + e <==> a == b && d == e
  {
  }

  /** The first `n` digits of `s` and `t` agree in value. */
  predicate SameDigits(s: string, t: string, n: nat)
    requires n <= |s| && n <= |t|
    requires forall i :: 0 <= i < |s| ==> IsHexDigit(s[i])
    requires forall i :: 0 <= i < |t| ==> IsHexDigit(t[i])
  {
    forall i :: 0 <= i < n ==> HexDigitValue(s[i]) == HexDigitValue(t[i])
  }

  /** The first `n` digits spell the same number exactly when they agree
      digit by digit in value. */
  lemma {:induction false} PrefixValueIffDigits(s: string, t: string, n: nat)
    requires n <= |s| && n <= |t|
    requires forall i :: 0 <= i < |s| ==> IsHexDigit(s[i])
    requires forall i :: 0 <= i < |t| ==> IsHexDigit(t[i])
    ensures HexValue(s[..n]) == HexValue(t[..n]) <==> SameDigits(s, t, n)
  {
    if n > 0 {
      PrefixValueIffDigits(s, t, n - 1);
      PrefixValueStep(s, n);
      PrefixValueStep(t, n);
      SameDigitsStep(s, t, n);
      LastDigitUnique(HexValue(s[..n - 1]), HexValue(t[..n - 1]), HexDigitValue(s[n - 1]), HexDigitValue(t[n - 1]));
    }
  }

  /** One more digit of a prefix. */
  lemma PrefixValueStep(s: string, n: nat)
    requires 0 < n <= |s|
    requires forall i :: 0 <= i < |s| ==> IsHexDigit(s[i])
    ensures HexValue(s[..n]) == 16 * HexValue(s[..n - 1]) + HexDigitValue(s[n - 1])
  {
    assert s[..n][..n - 1] == s[..n - 1];
  }

  /** Agreement on one more digit. */
  lemma SameDigitsStep(s: string, t: string, n: nat)
    requires 0 < n <= |s| && n <= |t|
    requires forall i :: 0 <= i < |s| ==> IsHexDigit(s[i])
    requires forall i :: 0 <= i < |t| ==> IsHexDigit(t[i])
    ensures SameDigits(s, t, n) <==> SameDigits(s, t, n - 1) && HexDigitValue(s[n - 1]) == HexDigitValue(t[n - 1])
  {
  }

  /** Hex strings of one length spell the same number exactly when they
      agree digit by digit in value. */
  lemma HexValueIffDigits(s: string, t: string)
    requires |s| == |t|
    requires forall i :: 0 <= i < |s| ==> IsHexDigit(s[i])
    requires forall i :: 0 <= i < |t| ==> IsHexDigit(t[i])
    ensures HexValue(s) == HexValue(t) <==> forall i :: 0 <= i < |s| ==> HexDigitValue(s[i]) == HexDigitValue(t[i])
  {
    PrefixValueIffDigits(s, t, |s|);
    assert s[..|s|] == s;
    assert t[..|t|] == t;
  }

  /** Two well-formed ids reach the same stored chat, the same canonical
      key, exactly when they denote the same twelve bytes. */
  lemma SameKeyIffSameValue(s: string, t: string)
    requires IsObjectId(s) && IsObjectId(t)
    ensures Canon(s) == Canon(t) <==> HexValue(s) == HexValue(t)
  {
    HexValueIffDigits(s, t);
    forall i | 0 <= i < |s| ensures HexDigitValue(s[i]) == HexDigitValue(t[i]) <==> Canon(s)[i] == Canon(t)[i] {
      DigitValueIffLower(s[i], t[i]);
    }
    if forall i :: 0 <= i < |s| ==> Canon(s)[i] == Canon(t)[i] {
      assert Canon(s) == Canon(t);
    }
  }
}
