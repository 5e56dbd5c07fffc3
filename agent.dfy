/** One turn of the memory-enhanced assistant: resolving whose memory the turn uses,
    normalising what the memory service returns into prompt blocks, putting the system
    message in front of the history, and deciding whether the exchange is stored.
    The memory service, the language model and the clock reach the model as inputs. */
module Agent {
  import opened Wrappers
  import opened Strings
  import opened ContextUtils
  import opened Messages

  // ---------------------------------------------------------------------------------------
  // User identity

  const DefaultUser: string := "default_user"

  /** The `configurable` part of a run's configuration: its `metadata` dictionary (empty
      when absent) and its `thread_id`, if any. */
  datatype Configurable = Configurable(metadata: map<string, string>, threadId: Option<string>)

  /** The memory partition key of a turn. */
  function ResolveUserId(cfg: Configurable): (userId: string)
    ensures "user_id" in cfg.metadata && cfg.metadata["user_id"] != DefaultUser ==>
      userId == cfg.metadata["user_id"]
    ensures ("user_id" !in cfg.metadata || cfg.metadata["user_id"] == DefaultUser) ==>
      var threadId := cfg.threadId.GetOr("");
      if Contains(threadId, "user_")
      then |Split(threadId, '_')| >= 2 && userId == "user_" + Split(threadId, '_')[1]
      else userId == DefaultUser
  {
    var fromMetadata := if "user_id" in cfg.metadata then cfg.metadata["user_id"] else DefaultUser;
    if fromMetadata == DefaultUser then
      var threadId := cfg.threadId.GetOr("");
      if Contains(threadId, "user_") then
        var parts := Split(threadId, '_');
        SplitGuardHolds(threadId);
        if |parts| >= 2 then "user_" + parts[1] else fromMetadata
      else fromMetadata
    else fromMetadata
  }

  /** The `len(parts) >= 2` guard of the thread-id heuristic never fails once "user_" occurs. */
  lemma SplitGuardHolds(threadId: string)
    requires Contains(threadId, "user_")
    ensures |Split(threadId, '_')| >= 2
  {
    ContainsOccurrence(threadId, "user_", 4, '_');
    SplitFields(threadId, '_');
  }

  /** Without a metadata user id, a thread id "<head>_<field>" or "<head>_<field>_<rest>"
      in which "user_" occurs resolves to "user_<field>": the second '_'-separated field. */
  lemma ResolveSecondField(cfg: Configurable, head: string, field: string, rest: string)
    requires "user_id" !in cfg.metadata || cfg.metadata["user_id"] == DefaultUser
    requires forall j :: 0 <= j < |head| ==> head[j] != '_'
    requires forall j :: 0 <= j < |field| ==> field[j] != '_'
    requires rest == "" || rest[0] == '_'
    requires cfg.threadId == Some(head + "_" + field + rest)
    requires Contains(head + "_" + field + rest, "user_")
    ensures ResolveUserId(cfg) == "user_" + field
  {
    SecondField(head, '_', field, rest);
  }

  /** A thread id "user_<token>" or "user_<token>_<rest>", with no metadata user id, resolves
      to "user_<token>". */
  lemma ResolveFromUserThread(cfg: Configurable, token: string, rest: string)
    requires "user_id" !in cfg.metadata || cfg.metadata["user_id"] == DefaultUser
    requires forall j :: 0 <= j < |token| ==> token[j] != '_'
    requires rest == "" || rest[0] == '_'
    requires cfg.threadId == Some("user_" + token + rest)
    ensures ResolveUserId(cfg) == "user_" + token
  {
    var t := "user_" + token + rest;
    assert "user_" <= t;
    assert t == "user" + "_" + token + rest;
    ResolveSecondField(cfg, "user", token, rest);
  }

  /** A thread id without '_' leaves the default user. */
  lemma ResolveDefault(cfg: Configurable)
    requires "user_id" !in cfg.metadata
    requires forall j :: 0 <= j < |cfg.threadId.GetOr("")| ==> cfg.threadId.GetOr("")[j] != '_'
    ensures ResolveUserId(cfg) == DefaultUser
  {
    var t := cfg.threadId.GetOr("");
    if Contains(t, "user_") {
      ContainsOccurrence(t, "user_", 4, '_');
      SplitFields(t, '_');
      SplitNoSeparator(t, '_');
      assert false;
    }
  }

  /** The resolver example of a thread id "user_mike_001" without metadata. */
  lemma ResolverExampleUserThread()
    ensures ResolveUserId(Configurable(map[], Some("user_mike_001"))) == "user_mike"
  {
    assert "user_mike_001" == "user_" + "mike" + "_001";
    ResolveFromUserThread(Configurable(map[], Some("user_mike_001")), "mike", "_001");
  }

  /** The resolver example of a thread id "abc123" without metadata. */
  lemma ResolverExampleDefault()
    ensures ResolveUserId(Configurable(map[], Some("abc123"))) == DefaultUser
  {
    ResolveDefault(Configurable(map[], Some("abc123")));
  }

  /** The heuristic takes the second '_'-separated field, which is not the token after
      "user_" when "user_" is not at the start of the thread id: "chat_user_7" resolves to
      "user_user". */
  lemma SecondFieldNotToken(head: string, token: string)
    requires forall j :: 0 <= j < |head| ==> head[j] != '_'
    requires forall j :: 0 <= j < |token| ==> token[j] != '_'
    ensures ResolveUserId(Configurable(map[], Some(head + "_user_" + token))) == "user_user"
  {
    var t := head + "_user_" + token;
    assert t == head + "_" + "user" + ("_" + token);
    assert t[|head| + 1..] == "user_" + token;
    assert "user_" <= t[|head| + 1..];
    ContainsInSuffix(t, |head| + 1, "user_");
    ResolveSecondField(Configurable(map[], Some(t)), head, "user", "_" + token);
  }

  /** Without metadata the resolved id is never empty. */
  lemma ResolvedIdNonEmpty(cfg: Configurable)
    requires "user_id" !in cfg.metadata
    ensures ResolveUserId(cfg) != ""
  {
  }

  // ---------------------------------------------------------------------------------------
  // Memory-service responses

  /** One stored memory: a dictionary (its string-valued fields and its Python string form),
      or anything else, on which `.get` raises. */
  datatype MemItem = ItemDict(fields: map<string, string>, repr: string) | ItemOther(repr: string)

  /** What `get_all` or `search` returned: a list, a dictionary of lists, or any other value. */
  datatype MemResponse = MemList(items: seq<MemItem>) | MemDict(entries: map<string, seq<MemItem>>) | MemOther

  /** The list of stored memories: a dictionary's "results" first, else its "memories", or a
      bare list; nothing for any other shape. */
  function MemoriesList(r: MemResponse): (items: seq<MemItem>)
    ensures r.MemList? ==> items == r.items
    ensures r.MemDict? && "results" in r.entries ==> items == r.entries["results"]
    ensures r.MemDict? && "results" !in r.entries && "memories" in r.entries ==> items == r.entries["memories"]
    ensures items != [] ==> r.MemList? || (r.MemDict? && ("results" in r.entries || "memories" in r.entries))
  {
    match r
    case MemList(items) => items
    case MemDict(entries) =>
      if "results" in entries then entries["results"]
      else if "memories" in entries then entries["memories"]
      else []
    case MemOther => []
  }

  /** The list of search results: only a dictionary's "results" or a bare list. */
  function RelevantList(r: MemResponse): (items: seq<MemItem>)
    ensures items == if r.MemDict? && "results" !in r.entries then [] else MemoriesList(r)
    ensures items != [] ==> items == MemoriesList(r)
  {
    match r
    case MemList(items) => items
    case MemDict(entries) => if "results" in entries then entries["results"] else []
    case MemOther => []
  }

  /** The three response shapes carrying the same list normalise to the same list; a dict
      holding both keys is read through "results". */
  lemma ShapesNormaliseAlike(items: seq<MemItem>, other: seq<MemItem>)
    ensures MemoriesList(MemDict(map["results" := items])) == items
    ensures MemoriesList(MemDict(map["memories" := items])) == items
    ensures MemoriesList(MemList(items)) == items
    ensures MemoriesList(MemDict(map["results" := items, "memories" := other])) == items
    ensures RelevantList(MemDict(map["memories" := items])) == []
  {
  }

  /** The text shown for a memory: its "memory" field, else its "text" field, else its string
      form; None where `.get` raises. */
  function ItemText(item: MemItem): (t: Option<string>)
    ensures t.None? <==> item.ItemOther?
    ensures item.ItemDict? ==>
      t.value == if "memory" in item.fields then item.fields["memory"]
                 else if "text" in item.fields then item.fields["text"]
                 else item.repr
  {
    match item
    case ItemOther(_) => None
    case ItemDict(fields, repr) =>
      Some(if "memory" in fields then fields["memory"] else if "text" in fields then fields["text"] else repr)
  }

  /** The texts of a list of memories, in order, or None when any of them raises. */
  function ItemTexts(items: seq<MemItem>): (texts: Option<seq<string>>)
    ensures texts.Some? <==> forall j :: 0 <= j < |items| ==> items[j].ItemDict?
    ensures texts.Some? ==>
      && |texts.value| == |items|
      && forall j :: 0 <= j < |items| ==> ItemText(items[j]) == Some(texts.value[j])
    decreases |items|
  {
    if items == [] then Some([])
    else
      var init := ItemTexts(items[..|items| - 1]);
      var last := ItemText(items[|items| - 1]);
      if init.Some? && last.Some? then Some(init.value + [last.value]) else None
  }

  /** One bullet line per text, in order. */
  function Bullets(texts: seq<string>): (b: string)
    ensures b == "" <==> texts == []
    decreases |texts|
  {
    if texts == [] then "" else Bullets(texts[..|texts| - 1]) + "• " + texts[|texts| - 1] + "\n"
  }

  function Min(a: nat, b: nat): nat { if a <= b then a else b }

  /** The stored memories the prompt shows: the texts of the first ten of the normalised list. */
  function SurfacedMemories(r: MemResponse): (texts: Option<seq<string>>)
    ensures texts.Some? ==> |texts.value| <= 10
    ensures texts.Some? ==>
      && |texts.value| == Min(10, |MemoriesList(r)|)
      && forall j :: 0 <= j < |texts.value| ==> ItemText(MemoriesList(r)[j]) == Some(texts.value[j])
    ensures texts.None? <==> exists j :: 0 <= j < Min(10, |MemoriesList(r)|) && MemoriesList(r)[j].ItemOther?
  {
    var shown := Take(MemoriesList(r), 10);
    assert forall j :: 0 <= j < |shown| ==> shown[j] == MemoriesList(r)[j];
    ItemTexts(shown)
  }

  /** The search results the prompt shows: the texts of the first three. */
  function SurfacedRelevant(r: MemResponse): (texts: Option<seq<string>>)
    ensures texts.Some? ==> |texts.value| <= 3
    ensures texts.Some? ==>
      && |texts.value| == Min(3, |RelevantList(r)|)
      && forall j :: 0 <= j < |texts.value| ==> ItemText(RelevantList(r)[j]) == Some(texts.value[j])
    ensures texts.None? <==> exists j :: 0 <= j < Min(3, |RelevantList(r)|) && RelevantList(r)[j].ItemOther?
  {
    var shown := Take(RelevantList(r), 3);
    assert forall j :: 0 <= j < |shown| ==> shown[j] == RelevantList(r)[j];
    ItemTexts(shown)
  }

  const StoredHeader: string := "\n\nSTORED FAMILY INFORMATION:\n"
  const StoredFooter: string := "\nIMPORTANT: Use this information to personalize your responses."
  const RelevantHeader: string := "\n\nRELEVANT CONTEXT FOR THIS QUERY:\n"

  /** The stored-information block ("" when the list is empty, None when an item raises). */
  function StoredBlock(r: MemResponse): (b: Option<string>)
    ensures b.None? <==> exists j :: 0 <= j < Min(10, |MemoriesList(r)|) && MemoriesList(r)[j].ItemOther?
    ensures b == Some("") <==> MemoriesList(r) == []
    ensures b.Some? && b.value != "" ==>
      && StoredHeader <= b.value
      && b.value == StoredHeader + Bullets(SurfacedMemories(r).value) + StoredFooter
  {
    if MemoriesList(r) == [] then Some("")
    else match SurfacedMemories(r)
      case None => None
      case Some(texts) => Some(StoredHeader + Bullets(texts) + StoredFooter)
  }

  /** The relevant-context block ("" when there are no results, None when an item raises). */
  function RelevantBlock(r: MemResponse): (b: Option<string>)
    ensures b.None? <==> exists j :: 0 <= j < Min(3, |RelevantList(r)|) && RelevantList(r)[j].ItemOther?
    ensures b == Some("") <==> RelevantList(r) == []
    ensures b.Some? && b.value != "" ==>
      && RelevantHeader <= b.value
      && b.value == RelevantHeader + Bullets(SurfacedRelevant(r).value)
  {
    if RelevantList(r) == [] then Some("")
    else match SurfacedRelevant(r)
      case None => None
      case Some(texts) => Some(RelevantHeader + Bullets(texts))
  }

  /** The system prompt after memory enhancement. */
  function MemoryEnhancedPrompt(
    hasClient: bool, userId: string, basePrompt: string, userMessage: string,
    getAll: Call<MemResponse>, search: Call<MemResponse>): (prompt: string)
    ensures basePrompt <= prompt
    ensures !hasClient || userId == "" || getAll.Raised? ==> prompt == basePrompt
    ensures userMessage != "" && search.Raised? ==> prompt == basePrompt
    ensures getAll.Returned? &&
      (exists j :: 0 <= j < Min(10, |MemoriesList(getAll.value)|) && MemoriesList(getAll.value)[j].ItemOther?)
      ==> prompt == basePrompt
    ensures userMessage != "" && search.Returned? &&
      (exists j :: 0 <= j < Min(3, |RelevantList(search.value)|) && RelevantList(search.value)[j].ItemOther?)
      ==> prompt == basePrompt
    ensures hasClient && userId != "" && userMessage == "" && getAll.Returned? ==>
      prompt == basePrompt + StoredBlock(getAll.value).GetOr("")
  {
    if !hasClient || userId == "" then basePrompt
    else match getAll
      case Raised => basePrompt
      case Returned(all) =>
        match StoredBlock(all)
        case None => basePrompt
        case Some(stored) =>
          if userMessage == "" then basePrompt + stored
          else match search
            case Raised => basePrompt
            case Returned(found) =>
              match RelevantBlock(found)
              case None => basePrompt
              case Some(relevant) => basePrompt + stored + relevant
  }

  /** The relevant-context block appears only for a non-empty user message: with an empty one
      the search reply plays no part. */
  lemma RelevantNeedsMessage(hasClient: bool, userId: string, basePrompt: string,
                             getAll: Call<MemResponse>, s1: Call<MemResponse>, s2: Call<MemResponse>)
    ensures MemoryEnhancedPrompt(hasClient, userId, basePrompt, "", getAll, s1)
         == MemoryEnhancedPrompt(hasClient, userId, basePrompt, "", getAll, s2)
  {
  }

  /** With a client and a user, memories that all read as dictionaries, and no search, the
      prompt is the base prompt plus the header, at most ten bullets and the footer. */
  lemma StoredBlockShape(userId: string, basePrompt: string, all: MemResponse)
    requires userId != "" && MemoriesList(all) != []
    requires forall j :: 0 <= j < |MemoriesList(all)| ==> MemoriesList(all)[j].ItemDict?
    ensures SurfacedMemories(all).Some?
    ensures MemoryEnhancedPrompt(true, userId, basePrompt, "", Returned(all), Raised)
         == basePrompt + StoredHeader + Bullets(SurfacedMemories(all).value) + StoredFooter
  {
  }

  /** With a client, a user and a non-empty message, and no item among those shown raising,
      the prompt is the base prompt, then the stored-information block (header, at most ten
      bullets, footer) unless there are no memories, then the relevant-context block (header,
      at most three bullets) unless there are no results. */
  lemma FullPromptShape(userId: string, basePrompt: string, userMessage: string, all: MemResponse, found: MemResponse)
    requires userId != "" && userMessage != ""
    requires forall j :: 0 <= j < Min(10, |MemoriesList(all)|) ==> MemoriesList(all)[j].ItemDict?
    requires forall j :: 0 <= j < Min(3, |RelevantList(found)|) ==> RelevantList(found)[j].ItemDict?
    ensures SurfacedMemories(all).Some? && SurfacedRelevant(found).Some?
    ensures MemoryEnhancedPrompt(true, userId, basePrompt, userMessage, Returned(all), Returned(found))
         == basePrompt
            + (if MemoriesList(all) == [] then "" else StoredHeader + Bullets(SurfacedMemories(all).value) + StoredFooter)
            + (if RelevantList(found) == [] then "" else RelevantHeader + Bullets(SurfacedRelevant(found).value))
  {
    var stored := StoredBlock(all);
    var relevant := RelevantBlock(found);
    assert stored.Some? && relevant.Some?;
    assert MemoryEnhancedPrompt(true, userId, basePrompt, userMessage, Returned(all), Returned(found))
        == basePrompt + stored.value + relevant.value;
  }

  /** Bullet lines of two lists of texts are the lines of the first, then those of the second. */
  lemma {:induction false} BulletsConcat(xs: seq<string>, ys: seq<string>)
    ensures Bullets(xs + ys) == Bullets(xs) + Bullets(ys)
    decreases |ys|
  {
    if ys == [] {
      assert xs + ys == xs;
    } else {
      var init := ys[..|ys| - 1];
      var last := ys[|ys| - 1];
      assert xs + ys == (xs + init) + [last];
      assert ys == init + [last];
      BulletsSnoc(xs + init, last);
      BulletsConcat(xs, init);
      BulletsSnoc(init, last);
    }
  }

  lemma BulletsSnoc(texts: seq<string>, t: string)
    ensures Bullets(texts + [t]) == Bullets(texts) + "• " + t + "\n"
  {
    assert (texts + [t])[..|texts + [t]| - 1] == texts;
  }

  lemma ItemTextsSnoc(items: seq<MemItem>, i: nat, texts: seq<string>)
    requires i < |items| && items[i].ItemDict?
    requires ItemTexts(items[..i]) == Some(texts)
    ensures ItemTexts(items[..i + 1]) == Some(texts + [ItemText(items[i]).value])
  {
    assert items[..i + 1][..i] == items[..i];
  }

  /** One more dictionary item: its text joins the texts and its bullet line the block. */
  lemma RenderStep(items: seq<MemItem>, i: nat, header: string, texts: seq<string>, acc: string, text: string)
    requires i < |items| && items[i].ItemDict?
    requires ItemTexts(items[..i]) == Some(texts) && acc == header + Bullets(texts)
    requires text == ItemText(items[i]).value
    ensures ItemTexts(items[..i + 1]) == Some(texts + [text])
    ensures acc + "• " + text + "\n" == header + Bullets(texts + [text])
  {
    ItemTextsSnoc(items, i, texts);
    BulletsSnoc(texts, text);
    var b := Bullets(texts);
    assert header + b + "• " + text + "\n" == header + (b + "• " + text + "\n");
  }

  /** Renders the bullet lines of `items`, or reports that one of them raises. */
  method RenderBullets(items: seq<MemItem>, header: string) returns (block: Option<string>)
    ensures block.None? <==> ItemTexts(items).None?
    ensures block.Some? ==> block.value == header + Bullets(ItemTexts(items).value)
  {
    var acc := header;
    ghost var texts: seq<string> := [];
    var i := 0;
    while i < |items|
      invariant 0 <= i <= |items|
      invariant ItemTexts(items[..i]) == Some(texts)
      invariant acc == header + Bullets(texts)
    {
      var item := items[i];
      if item.ItemOther? {
        return None;
      }
      var text := if "memory" in item.fields then item.fields["memory"]
                  else if "text" in item.fields then item.fields["text"]
                  else item.repr;
      RenderStep(items, i, header, texts, acc, text);
      acc := acc + "• " + text + "\n";
      texts := texts + [text];
      i := i + 1;
    }
    assert items[..i] == items;
    block := Some(acc);
  }

  /** `create_memory_enhanced_system_prompt`, with the client's replies as inputs. */
  method CreateMemoryEnhancedSystemPrompt(
    hasClient: bool, userId: string, basePrompt: string, userMessage: string,
    getAll: Call<MemResponse>, search: Call<MemResponse>) returns (prompt: string)
    ensures prompt == MemoryEnhancedPrompt(hasClient, userId, basePrompt, userMessage, getAll, search)
  {
    if !hasClient || userId == "" {
      return basePrompt;
    }
    if getAll.Raised? {
      return basePrompt;
    }
    var all := getAll.value;
    var storedPart := "";
    if MemoriesList(all) != [] {
      var block := RenderBullets(Take(MemoriesList(all), 10), StoredHeader);
      if block.None? {
        return basePrompt;
      }
      storedPart := block.value + StoredFooter;
    }
    assert StoredBlock(all) == Some(storedPart);
    if userMessage == "" {
      return basePrompt + storedPart;
    }
    if search.Raised? {
      return basePrompt;
    }
    var found := search.value;
    var relevantPart := "";
    if RelevantList(found) != [] {
      var block := RenderBullets(Take(RelevantList(found), 3), RelevantHeader);
      if block.None? {
        return basePrompt;
      }
      relevantPart := block.value;
    }
    assert RelevantBlock(found) == Some(relevantPart);
    prompt := basePrompt + storedPart + relevantPart;
  }

  // ---------------------------------------------------------------------------------------
  // Storing the exchange

  datatype MemEntry = MemEntry(role: string, content: string)

  /** `store_interaction_in_memory`: the transcript sent to the memory service, if any. */
  function StoreInteraction(hasClient: bool, userId: string, userMessage: string, assistantResponse: string)
    : (sent: Option<seq<MemEntry>>)
    ensures sent.Some? <==> hasClient && userId != ""
    ensures sent.Some? ==>
      sent.value == [MemEntry("user", userMessage), MemEntry("assistant", assistantResponse)]
  {
    if !hasClient || userId == "" then None
    else Some([MemEntry("user", userMessage), MemEntry("assistant", assistantResponse)])
  }

  /** The content of the history's last message when it is a human message, else "". */
  function CurrentUserMessage(msgs: seq<Message>): (m: string)
    ensures |msgs| > 0 && msgs[|msgs| - 1].HumanMessage? ==> m == msgs[|msgs| - 1].content
    ensures !(|msgs| > 0 && msgs[|msgs| - 1].HumanMessage?) ==> m == ""
  {
    if |msgs| > 0 && msgs[|msgs| - 1].HumanMessage? then msgs[|msgs| - 1].content else ""
  }

  /** The storing gate of a turn: a non-empty human message and a plain-text reply. */
  function ExchangeToStore(hasClient: bool, userId: string, msgs: seq<Message>, reply: Content)
    : (sent: Option<seq<MemEntry>>)
    ensures sent.Some? <==>
      hasClient && userId != "" && |msgs| > 0 && msgs[|msgs| - 1].HumanMessage?
      && msgs[|msgs| - 1].content != "" && reply.Text?
    ensures sent.Some? ==>
      sent.value == [MemEntry("user", msgs[|msgs| - 1].content), MemEntry("assistant", reply.text)]
  {
    var current := CurrentUserMessage(msgs);
    if current != "" && reply.Text? then StoreInteraction(hasClient, userId, current, reply.text)
    else None
  }

  // ---------------------------------------------------------------------------------------
  // System-message placement

  /** The history as sent to the model: a leading system message is replaced by the new
      prompt, otherwise the new prompt is put in front. */
  function WithSystemPrompt(msgs: seq<Message>, prompt: string): (r: seq<Message>)
    ensures |r| > 0 && r[0] == SystemMessage(prompt)
    ensures |msgs| > 0 && msgs[0].SystemMessage? ==> r[1..] == msgs[1..] && |r| == |msgs|
    ensures !(|msgs| > 0 && msgs[0].SystemMessage?) ==> r[1..] == msgs && |r| == |msgs| + 1
  {
    if |msgs| > 0 && msgs[0].SystemMessage? then [SystemMessage(prompt)] + msgs[1..]
    else [SystemMessage(prompt)] + msgs
  }

  /** Placing a second prompt after a first one leaves only the second: system messages do not
      pile up from turn to turn. */
  lemma SystemPromptRefreshed(msgs: seq<Message>, p1: string, p2: string)
    ensures WithSystemPrompt(WithSystemPrompt(msgs, p1), p2) == WithSystemPrompt(msgs, p2)
  {
    var once := WithSystemPrompt(msgs, p1);
    assert once[1..] == (if |msgs| > 0 && msgs[0].SystemMessage? then msgs[1..] else msgs);
  }

  // ---------------------------------------------------------------------------------------
  // The turn

  datatype ContextValue =
    | TimeValue(time: TimeInfo)
    | LocationValue(location: LocationInfo)
    | Stamp(iso: string)
    | OtherValue(repr: string)

  /** The conversation state: its message list (a mutable list) and its context dictionary. */
  class AgentState {
    var messages: array<Message>
    var context: map<string, ContextValue>

    constructor (msgs: seq<Message>, ctx: map<string, ContextValue>)
      ensures messages[..] == msgs && context == ctx && fresh(messages)
    {
      messages := new Message[|msgs|](i requires 0 <= i < |msgs| => msgs[i]);
      context := ctx;
    }
  }

  /** What the node returns for the runtime to merge. */
  datatype TurnUpdate = TurnUpdate(messages: seq<Message>, context: map<string, ContextValue>, userId: string)

  /** `chatbot`: one turn. The clock, the location lookup, the timestamp, the base prompt, the
      memory client's replies and the model's reply (or the fact that the call raised) are
      inputs. Returns the messages sent to the model, the node's update (Raised when the model
      call raised, which the turn then propagates) and what was handed to the memory service.
      The context and a leading system message are updated before the model is called, so a
      raising call leaves them updated. */
  method Chatbot(
    state: AgentState, cfg: Configurable, clock: Clock, lookup: LookupOutcome, nowIso: string,
    basePrompt: string, hasClient: bool, getAll: Call<MemResponse>, search: Call<MemResponse>,
    reply: Call<Content>)
    returns (sent: seq<Message>, update: Call<TurnUpdate>, stored: Option<seq<MemEntry>>)
    modifies state, state.messages
    ensures state.messages == old(state.messages)
    ensures state.context == old(state.context)
      ["time" := TimeValue(CurrentTimeAndDate(clock))]
      ["location" := LocationValue(GetLocationContext(lookup))]
      ["last_updated" := Stamp(nowIso)]
    ensures var userId := ResolveUserId(cfg);
      var history := old(state.messages[..]);
      var prompt := MemoryEnhancedPrompt(hasClient, userId, basePrompt, CurrentUserMessage(history), getAll, search);
      && sent == WithSystemPrompt(history, prompt)
      && (reply.Raised? ==> stored.None? && update.Raised?)
      && (reply.Returned? ==>
            && stored == ExchangeToStore(hasClient, userId, history, reply.value)
            && update == Returned(TurnUpdate([AIMessage(reply.value)], state.context, userId)))
    ensures old(state.messages.Length) > 0 && old(state.messages[0]).SystemMessage? ==>
      state.messages[..] == sent
    ensures !(old(state.messages.Length) > 0 && old(state.messages[0]).SystemMessage?) ==>
      state.messages[..] == old(state.messages[..])
  {
    var userId := ResolveUserId(cfg);
    state.context := state.context
      ["time" := TimeValue(CurrentTimeAndDate(clock))]
      ["location" := LocationValue(GetLocationContext(lookup))]
      ["last_updated" := Stamp(nowIso)];
    var messages := state.messages;
    var current := CurrentUserMessage(messages[..]);
    var systemPrompt := CreateMemoryEnhancedSystemPrompt(hasClient, userId, basePrompt, current, getAll, search);
    if messages.Length > 0 && messages[0].SystemMessage? {
      messages[0] := SystemMessage(systemPrompt);
      sent := messages[..];
      assert sent[1..] == old(state.messages[..])[1..];
    } else {
      sent := [SystemMessage(systemPrompt)] + messages[..];
    }
    if reply.Raised? {
      return sent, Raised, None;
    }
    var response := reply.value;
    if current != "" && response.Text? {
      stored := StoreInteraction(hasClient, userId, current, response.text);
    } else {
      stored := None;
    }
    update := Returned(TurnUpdate([AIMessage(response)], state.context, userId));
  }
}
