/**
 * The client of the local Ollama inference server: the health probe, the model
 * list and its error marker, the completion primitive (flattening a chat into one
 * prompt, reading a streamed reply, picking a JSON object out of the answer) and the
 * two question-level helpers built on it.
 *
 * HTTP replies, `json.loads`, `convert_to_json` and the prompt templates are not
 * computed here: they are parameters (outcome values or functions), so every
 * statement below holds for whatever the server and those collaborators do.
 */
module OllamaConnections {
  import opened Wrappers
  import opened PyStr

  // ---------------------------------------------------------------------------
  // Model list and model_exists
  // ---------------------------------------------------------------------------

  /** One entry of the model list: a dictionary (its "name" and "error" keys, None when absent) or some other value. */
  datatype ModelEntry = ModelInfo(name: Option<string>, error: Option<string>) | NotADict

  /** The body of a GET `/api/tags` reply: its "models" list, or a body `.json()` could not read. */
  datatype ModelsJson = Models(entries: seq<ModelEntry>) | BadModelsJson(error: string)

  /** What a GET `/api/tags` gives: an exception from `requests`, or a status code and a body. */
  datatype TagsReply = GetRaised(error: string) | TagsResponse(status: nat, body: ModelsJson)

  /** An entry whose "error" field is truthy. */
  predicate IsErrorMarker(e: ModelEntry)
  {
    e.ModelInfo? && e.error.Some? && e.error.value != ""
  }

  /** `ollama_is_running`: a 200 reply from `/api/tags`; an exception means not running. */
  function IsRunning(probe: TagsReply): (running: bool)
    ensures probe.GetRaised? ==> !running
    ensures probe.TagsResponse? ==> (running <==> probe.status == 200)
    ensures ListingOk(probe) ==> running
  {
    probe.TagsResponse? && probe.status == 200
  }

  /** The list is authoritative only when the server answered 200 with a readable body. */
  predicate ListingOk(reply: TagsReply)
  {
    reply.TagsResponse? && reply.status == 200 && reply.body.Models?
  }

  /** `ollama_get_models_list`: the "models" list, or a list holding one error marker. */
  function ModelsList(reply: TagsReply): (models: seq<ModelEntry>)
    ensures ListingOk(reply) ==> models == reply.body.entries
    ensures !ListingOk(reply) ==> |models| == 1 && IsErrorMarker(models[0])
  {
    match reply
    case GetRaised(e) =>
      [ModelInfo(None, Some("Error occurred while getting Ollama models list: " + e))]
    case TagsResponse(status, body) =>
      if status == 200 then
        match body
        case Models(entries) => entries
        case BadModelsJson(e) =>
          [ModelInfo(None, Some("Error occurred while getting Ollama models list: " + e))]
      else
        [ModelInfo(None, Some("Failed to get Ollama models. Status code: " + NatToString(status)))]
  }

  /**
   * The second `any(...)` of `ollama_model_exists`, walked left to right: `model.get`
   * on an entry that is not a dictionary raises, and the handler answers False.
   */
  function NameScan(models: seq<ModelEntry>, name: string): (found: bool)
    ensures found ==> exists k :: 0 <= k < |models| && models[k].ModelInfo? && models[k].name == Some(name)
    ensures found ==> models[0].ModelInfo?
  {
    if models == [] then false
    else match models[0]
      case NotADict => false
      case ModelInfo(n, _) => n == Some(name) || NameScan(models[1..], name)
  }

  /** `ollama_model_exists` on the list it fetched. */
  function ModelExists(models: seq<ModelEntry>, name: string): (found: bool)
    ensures found ==> forall j :: 0 <= j < |models| ==> !IsErrorMarker(models[j])
    ensures found ==> exists k :: 0 <= k < |models| && models[k].ModelInfo? && models[k].name == Some(name)
  {
    if exists k :: 0 <= k < |models| && IsErrorMarker(models[k]) then false
    else
      NameScanFinds(models, name);
      NameScan(models, name)
  }

  /** The entry at `k` carries exactly `name`, and every entry before it is a dictionary. */
  ghost predicate FoundAt(models: seq<ModelEntry>, name: string, k: int)
  {
    && 0 <= k < |models|
    && models[k].ModelInfo? && models[k].name == Some(name)
    && forall j :: 0 <= j < k ==> models[j].ModelInfo?
  }

  lemma {:induction false} NameScanFinds(models: seq<ModelEntry>, name: string)
    ensures NameScan(models, name) <==> exists k :: FoundAt(models, name, k)
  {
    if models != [] {
      NameScanFinds(models[1..], name);
      if models[0].ModelInfo? && models[0].name != Some(name) {
        if NameScan(models, name) {
          var k :| FoundAt(models[1..], name, k);
          assert FoundAt(models, name, k + 1);
        }
        if exists k :: FoundAt(models, name, k) {
          var k :| FoundAt(models, name, k);
          assert FoundAt(models[1..], name, k - 1);
        }
      } else if models[0].ModelInfo? {
        assert FoundAt(models, name, 0);
      } else {
        forall k | 0 <= k < |models| ensures !FoundAt(models, name, k) {
          assert !models[0].ModelInfo?;
        }
      }
    }
  }

  /**
   * `ollama_model_exists` is true exactly when no entry is an error marker and some
   * entry is named `name` with only dictionaries before it; an error marker anywhere
   * makes it false whatever the name.
   */
  lemma ModelExistsExactly(models: seq<ModelEntry>, name: string)
    ensures ModelExists(models, name) <==>
      && (forall j :: 0 <= j < |models| ==> !IsErrorMarker(models[j]))
      && exists k :: FoundAt(models, name, k)
  {
    NameScanFinds(models, name);
  }

  /** When the listing failed (exception, non-200, unreadable body), no model exists, whatever its name. */
  lemma FailedListingHasNoModel(reply: TagsReply, name: string)
    requires !ListingOk(reply)
    ensures !ModelExists(ModelsList(reply), name)
  {
    assert IsErrorMarker(ModelsList(reply)[0]);
  }

  // ---------------------------------------------------------------------------
  // Flattening a chat into one prompt
  // ---------------------------------------------------------------------------

  /** One message dictionary; a missing "role" or "content" key is None. */
  datatype Message = Message(role: Option<string>, content: Option<string>)

  function Role(m: Message): string { m.role.GetOr("user") }

  function Content(m: Message): string { m.content.GetOr("") }

  function UserMessage(content: string): Message { Message(Some("user"), Some(content)) }

  /** The marker that ends every flattened prompt. */
  const AssistantCue: string := "Assistant: "

  /** The line a user or assistant turn contributes; every other role contributes nothing. */
  function Turn(m: Message): string
  {
    if Role(m) == "user" then "User: " + Content(m) + "\n"
    else if Role(m) == "assistant" then "Assistant: " + Content(m) + "\n"
    else ""
  }

  /** What a system message puts ahead of the prompt. */
  function Preamble(m: Message): string
  {
    if Role(m) == "system" then Content(m) + "\n\n" else ""
  }

  /** The user and assistant turns, in input order. */
  function Transcript(ms: seq<Message>): string
  {
    if ms == [] then "" else Turn(ms[0]) + Transcript(ms[1..])
  }

  /** The system contents, latest first. */
  function SystemHeader(ms: seq<Message>): string
  {
    if ms == [] then "" else SystemHeader(ms[1..]) + Preamble(ms[0])
  }

  /** The prompt built from these messages before the cue: system contents (latest first), then the turns in order. */
  function Flattened(ms: seq<Message>): string
  {
    SystemHeader(ms) + Transcript(ms)
  }

  /** The prompt `ollama_completion` sends: the flattened messages, then the cue. */
  function FlatPrompt(ms: seq<Message>): string
  {
    Flattened(ms) + AssistantCue
  }

  /** The turns of a concatenation are the turns of each part, one after the other. */
  lemma {:induction false} TranscriptConcat(s: seq<Message>, t: seq<Message>)
    ensures Transcript(s + t) == Transcript(s) + Transcript(t)
  {
    if s == [] {
      assert s + t == t;
    } else {
      assert (s + t)[1..] == s[1..] + t;
      TranscriptConcat(s[1..], t);
    }
  }

  /** System messages of a later part land ahead of those of an earlier part. */
  lemma {:induction false} SystemHeaderConcat(s: seq<Message>, t: seq<Message>)
    ensures SystemHeader(s + t) == SystemHeader(t) + SystemHeader(s)
  {
    if s == [] {
      assert s + t == t;
    } else {
      assert (s + t)[1..] == s[1..] + t;
      SystemHeaderConcat(s[1..], t);
    }
  }

  lemma TranscriptSnoc(done: seq<Message>, m: Message)
    ensures Transcript(done + [m]) == Transcript(done) + Turn(m)
  {
    TranscriptConcat(done, [m]);
    assert Transcript([m]) == Turn(m) + Transcript([]);
  }

  lemma SystemHeaderSnoc(done: seq<Message>, m: Message)
    ensures SystemHeader(done + [m]) == Preamble(m) + SystemHeader(done)
  {
    SystemHeaderConcat(done, [m]);
    assert SystemHeader([m]) == SystemHeader([]) + Preamble(m);
  }

  /** A system message rewrites the prompt built so far to `content + "\n\n" + prompt`. */
  lemma SystemStep(done: seq<Message>, m: Message)
    requires Role(m) == "system"
    ensures Flattened(done + [m]) == Content(m) + "\n\n" + Flattened(done)
  {
    TranscriptSnoc(done, m);
    SystemHeaderSnoc(done, m);
    assert Turn(m) == "";
    EmptyRight(Transcript(done), Turn(m));
    ConcatAssoc(Content(m) + "\n\n", SystemHeader(done), Transcript(done));
  }

  /** A user or assistant message, or one with any other role, appends its turn (possibly empty). */
  lemma TurnStep(done: seq<Message>, m: Message)
    requires Role(m) != "system"
    ensures Flattened(done + [m]) == Flattened(done) + Turn(m)
  {
    TranscriptSnoc(done, m);
    SystemHeaderSnoc(done, m);
    assert Preamble(m) == "";
    EmptyLeft(Preamble(m), SystemHeader(done));
    ConcatAssoc(SystemHeader(done), Transcript(done), Turn(m));
  }

  /** The message loop of `ollama_completion`, followed by the final cue. */
  method Flatten(messages: seq<Message>) returns (prompt: string)
    ensures prompt == FlatPrompt(messages)
  {
    prompt := "";
    for i := 0 to |messages|
      invariant prompt == Flattened(messages[..i])
    {
      var msg := messages[i];
      var role := msg.role.GetOr("user");
      var content := msg.content.GetOr("");
      assert messages[..i + 1] == messages[..i] + [msg];
      if role == "system" {
        SystemStep(messages[..i], msg);
        prompt := content + "\n\n" + prompt;
      } else {
        TurnStep(messages[..i], msg);
        if role == "user" {
          prompt := prompt + ("User: " + content + "\n");
        } else if role == "assistant" {
          prompt := prompt + ("Assistant: " + content + "\n");
        } else {
          assert Turn(msg) == "";
          assert prompt + "" == prompt;
        }
      }
    }
    assert messages[..|messages|] == messages;
    prompt := prompt + AssistantCue;
  }

  /** Without system messages nothing is put ahead of the turns. */
  lemma {:induction false} NoSystemNoHeader(ms: seq<Message>)
    requires forall k :: 0 <= k < |ms| ==> Role(ms[k]) != "system"
    ensures SystemHeader(ms) == ""
  {
    if ms != [] {
      assert Role(ms[0]) != "system";
      NoSystemNoHeader(ms[1..]);
    }
  }

  /** Without system messages the prompt is just the turns in input order and the cue. */
  lemma NoSystemPrompt(ms: seq<Message>)
    requires forall k :: 0 <= k < |ms| ==> Role(ms[k]) != "system"
    ensures FlatPrompt(ms) == Transcript(ms) + AssistantCue
  {
    NoSystemNoHeader(ms);
    EmptyLeft(SystemHeader(ms), Transcript(ms));
  }

  /** A question sent as one user message reaches the server as `"User: " + text + "\n" + "Assistant: "`. */
  lemma SingleUserPrompt(text: string)
    ensures FlatPrompt([UserMessage(text)]) == "User: " + text + "\n" + AssistantCue
  {
    var u := UserMessage(text);
    assert [u][1..] == [];
    assert Role(u) == "user";
    assert Transcript([u]) == Turn(u) + Transcript([]);
    assert SystemHeader([u]) == SystemHeader([]) + Preamble(u);
    assert Preamble(u) == "";
  }

  // ---------------------------------------------------------------------------
  // Reading a streamed reply
  // ---------------------------------------------------------------------------

  /**
   * One line of `iter_lines()`: empty, a JSON chunk (its "response", None when absent,
   * and whether "done" is truthy), or a line on which `json.loads` or `.get` raises.
   */
  datatype Line = Blank | Chunk(response: Option<string>, done: bool) | Malformed(error: string)

  /** The loop leaves after this line: the chunk says done, or reading it raised. */
  predicate Stops(l: Line)
  {
    (l.Chunk? && l.done) || l.Malformed?
  }

  function ChunkText(l: Line): string
  {
    if l.Chunk? then l.response.GetOr("") else ""
  }

  /** The "response" texts of all the chunks, in order. */
  function Texts(ls: seq<Line>): string
  {
    if ls == [] then "" else ChunkText(ls[0]) + Texts(ls[1..])
  }

  /** How many lines the loop reads: up to and including the first stopping line, or all of them. */
  function LinesRead(ls: seq<Line>): (n: nat)
    ensures n <= |ls|
    ensures forall j :: 0 <= j < n - 1 ==> !Stops(ls[j])
    ensures (0 < n && Stops(ls[n - 1])) || (n == |ls| && forall j :: 0 <= j < |ls| ==> !Stops(ls[j]))
  {
    if ls == [] then 0
    else if Stops(ls[0]) then 1
    else 1 + LinesRead(ls[1..])
  }

  /** The streamed answer: the texts of the lines read, or the exception raised on the last of them. */
  function StreamResult(ls: seq<Line>): Result<string, string>
  {
    var n := LinesRead(ls);
    if 0 < n && ls[n - 1].Malformed? then Failure(ls[n - 1].error)
    else Success(Texts(ls[..n]))
  }

  lemma {:induction false} TextsConcat(s: seq<Line>, t: seq<Line>)
    ensures Texts(s + t) == Texts(s) + Texts(t)
  {
    if s == [] {
      assert s + t == t;
    } else {
      assert (s + t)[1..] == s[1..] + t;
      TextsConcat(s[1..], t);
    }
  }

  /** The loop reads up to the first stopping line and no further. */
  lemma FirstStopIsRead(ls: seq<Line>, i: nat)
    requires i < |ls| && Stops(ls[i])
    requires forall j :: 0 <= j < i ==> !Stops(ls[j])
    ensures LinesRead(ls) == i + 1
  {
    var n := LinesRead(ls);
    assert 0 < n && Stops(ls[n - 1]);
  }

  /** The streaming loop of `ollama_completion`; `read` counts the lines it took from the reply. */
  method ReadStream(lines: seq<Line>) returns (result: Result<string, string>, read: nat)
    ensures read == LinesRead(lines)
    ensures result == StreamResult(lines)
  {
    var acc := "";
    var i := 0;
    while i < |lines|
      invariant 0 <= i <= |lines|
      invariant forall j :: 0 <= j < i ==> !Stops(lines[j])
      invariant acc == Texts(lines[..i])
    {
      var line := lines[i];
      assert lines[..i + 1] == lines[..i] + [line];
      TextsConcat(lines[..i], [line]);
      assert Texts([line]) == ChunkText(line) + Texts([]);
      match line {
        case Blank =>
        case Malformed(e) =>
          FirstStopIsRead(lines, i);
          return Failure(e), i + 1;
        case Chunk(resp, done) =>
          acc := acc + resp.GetOr("");
          if done {
            FirstStopIsRead(lines, i);
            assert acc == Texts(lines[..i + 1]);
            return Success(acc), i + 1;
          }
      }
      i := i + 1;
    }
    assert lines[..i] == lines;
    result, read := Success(acc), i;
  }

  /** Once a chunk says done, nothing that follows it is read or changes the answer. */
  lemma {:induction false} StreamIgnoresTail(ls: seq<Line>, rest: seq<Line>)
    requires exists j :: 0 <= j < |ls| && Stops(ls[j])
    ensures LinesRead(ls + rest) == LinesRead(ls)
    ensures StreamResult(ls + rest) == StreamResult(ls)
  {
    var n := LinesRead(ls);
    var j :| 0 <= j < |ls| && Stops(ls[j]);
    assert 0 < n && Stops(ls[n - 1]);
    forall k | 0 <= k < n - 1 ensures !Stops((ls + rest)[k]) {
      assert (ls + rest)[k] == ls[k];
    }
    assert (ls + rest)[n - 1] == ls[n - 1];
    FirstStopIsRead(ls + rest, n - 1);
    assert (ls + rest)[..n] == ls[..n];
  }

  /** A stream that never says done and has no unreadable line is read to the end, and the answer is every chunk's text. */
  lemma StreamWithoutDone(ls: seq<Line>)
    requires forall j :: 0 <= j < |ls| ==> !Stops(ls[j])
    ensures LinesRead(ls) == |ls|
    ensures StreamResult(ls) == Success(Texts(ls))
  {
    assert ls[..|ls|] == ls;
  }

  /** "Hel", "lo" and a final empty done chunk give "Hello", and the loop stops at the third line. */
  lemma StreamHello(tail: seq<Line>)
    ensures var ls := [Chunk(Some("Hel"), false), Chunk(Some("lo"), false), Chunk(Some(""), true)] + tail;
      LinesRead(ls) == 3 && StreamResult(ls) == Success("Hello")
  {
    var head := [Chunk(Some("Hel"), false), Chunk(Some("lo"), false), Chunk(Some(""), true)];
    assert Stops(head[2]);
    FirstStopIsRead(head, 2);
    StreamIgnoresTail(head, tail);
    assert head[..3] == head;
    assert Texts(head) == "Hel" + Texts(head[1..]);
    assert Texts(head[1..]) == "lo" + Texts(head[2..]);
    assert Texts(head[2..]) == "" + Texts(head[3..]);
    assert head[3..] == [];
    assert Texts(head) == "Hello";
  }

  // ---------------------------------------------------------------------------
  // Choosing the text handed to the JSON parser
  // ---------------------------------------------------------------------------

  /** The span from the first `{` to the last `}`, when the last `}` lies after the first `{`. */
  function JsonCandidate(text: string): (span: Option<string>)
    ensures span.Some? ==>
      && 0 <= Find(text, '{') < RFind(text, '}')
      && |span.value| >= 2 && span.value[0] == '{' && span.value[|span.value| - 1] == '}'
      && span.value == text[Find(text, '{')..RFind(text, '}') + 1]
  {
    var start := Find(text, '{');
    var end := RFind(text, '}') + 1;
    if start >= 0 && end > start then
      assert text[start] == '{' && text[end - 1] == '}';
      assert 0 <= start < end - 1 < |text|;
      var span := text[start..end];
      assert |span| >= 2 && span[0] == text[start] && span[|span| - 1] == text[end - 1];
      Some(span)
    else
      None
  }

  /** A span is chosen exactly when some `}` follows some `{`. */
  lemma JsonCandidateExists(text: string)
    ensures JsonCandidate(text).Some? <==> exists i, j :: 0 <= i < j < |text| && text[i] == '{' && text[j] == '}'
  {
    if JsonCandidate(text).Some? {
      var first, last := Find(text, '{'), RFind(text, '}');
      assert 0 <= first < last < |text| && text[first] == '{' && text[last] == '}';
    } else {
      NoBracePair(text);
    }
  }

  /** The first `c` comes no later than any occurrence of `c`. */
  lemma FindBound(s: string, c: char, k: nat)
    requires k < |s| && s[k] == c
    ensures 0 <= Find(s, c) <= k
  {
    var r := Find(s, c);
    assert s[k] in s;
    assert forall j :: 0 <= j < r ==> s[j] in s[..r];
  }

  /** The last `c` comes no earlier than any occurrence of `c`. */
  lemma RFindBound(s: string, c: char, k: nat)
    requires k < |s|
    ensures s[k] == c ==> k <= RFind(s, c)
  {
    var r := RFind(s, c);
    assert s[k] in s;
    assert forall j :: r < j < |s| ==> s[j] in s[r + 1..];
  }

  /** When the last `}` does not follow the first `{`, no `}` follows any `{`. */
  lemma NoBracePair(text: string)
    requires !(Find(text, '{') >= 0 && RFind(text, '}') + 1 > Find(text, '{'))
    ensures forall i, j :: 0 <= i < j < |text| && text[i] == '{' ==> text[j] != '}'
  {
    forall i, j | 0 <= i < j < |text| && text[i] == '{' ensures text[j] != '}' {
      FindBound(text, '{', i);
      RFindBound(text, '}', j);
    }
  }

  lemma FindAt(s: string, c: char, k: nat)
    requires k < |s| && s[k] == c
    requires forall j :: 0 <= j < k ==> s[j] != c
    ensures Find(s, c) == k
  {
    var r := Find(s, c);
    assert s[k] in s;
    assert forall j :: 0 <= j < r ==> s[j] in s[..r];
  }

  lemma RFindAt(s: string, c: char, k: nat)
    requires k < |s| && s[k] == c
    requires forall j :: k < j < |s| ==> s[j] != c
    ensures RFind(s, c) == k
  {
    var r := RFind(s, c);
    assert s[k] in s;
    assert forall j :: r < j < |s| ==> s[j] in s[r + 1..];
  }

  /** Surrounding text without braces does not change the span: the parser gets exactly the object. */
  lemma CandidateIgnoresSurroundings(before: string, obj: string, after: string)
    requires |obj| >= 2 && obj[0] == '{' && obj[|obj| - 1] == '}'
    requires '{' !in before && '}' !in after
    ensures JsonCandidate(before + obj + after) == Some(obj)
  {
    var text := before + obj + after;
    var first, last := |before|, |before| + |obj| - 1;
    assert text[first] == '{' && text[last] == '}';
    forall j | 0 <= j < first ensures text[j] != '{' {
      assert text[j] == before[j];
    }
    forall j | last < j < |text| ensures text[j] != '}' {
      assert text[j] == after[j - |before| - |obj|];
    }
    FindAt(text, '{', first);
    RFindAt(text, '}', last);
    assert text[first..last + 1] == obj;
  }

  // ---------------------------------------------------------------------------
  // The completion
  // ---------------------------------------------------------------------------

  /** What `json.loads` does with a text: a parsed value, or `JSONDecodeError`. */
  datatype Parse<J> = Parsed(value: J) | DecodeError(error: string)

  /** The body of a non-streamed reply: its "response" field (None when absent), or a body `.json()` rejects. */
  datatype Body = Body(response: Option<string>) | BadBody(error: string)

  /**
   * What a POST to `/api/generate` gives: an exception from `requests`, or a reply with
   * its status code, its text, its JSON body and its lines when read as a stream.
   */
  datatype PostReply = PostRaised(error: string) | Reply(status: nat, text: string, body: Body, lines: seq<Line>)

  /** The `response_format` argument: absent, or a dictionary with its "type" field. */
  datatype ResponseFormat = NoFormat | Format(formatType: Option<string>)

  predicate WantsJson(f: ResponseFormat)
  {
    f.Format? && f.formatType == Some("json_schema")
  }

  /** What the completion returns: the answer text, a parsed structure, or the `{"error": message}` mapping. */
  datatype CompletionResult<J> = TextAnswer(text: string) | Structured(value: J) | ErrorMapping(error: string)

  const CompletionErrorPrefix: string := "Error occurred while generating Ollama completion: "

  /** The answer text of a reply, or the message of the exception raised while getting it. */
  function ReplyText(reply: PostReply, stream: bool): (r: Result<string, string>)
    ensures reply.PostRaised? ==> r == Failure(reply.error)
    ensures reply.Reply? && stream ==> r == StreamResult(reply.lines)
    ensures reply.Reply? && !stream && reply.status != 200 ==>
      r.Failure? && r.error == "Ollama API error: " + NatToString(reply.status) + " - " + reply.text
    ensures reply.Reply? && !stream && reply.status == 200 ==>
      (r.Success? <==> reply.body.Body?) && (r.Success? ==> r.value == reply.body.response.GetOr(""))
  {
    match reply
    case PostRaised(e) => Failure(e)
    case Reply(status, text, body, lines) =>
      if stream then StreamResult(lines)
      else if status == 200 then
        match body
        case Body(response) => Success(response.GetOr(""))
        case BadBody(e) => Failure(e)
      else Failure("Ollama API error: " + NatToString(status) + " - " + text)
  }

  /** The text the first parse is run on: the brace span when there is one, the whole answer otherwise. */
  function ParserInput(text: string): (input: string)
    ensures JsonCandidate(text).None? ==> input == text
    ensures JsonCandidate(text).Some? ==>
      && 0 <= Find(text, '{') < RFind(text, '}')
      && input == text[Find(text, '{')..RFind(text, '}') + 1]
      && input[0] == '{' && input[|input| - 1] == '}'
  {
    match JsonCandidate(text)
    case Some(span) => span
    case None => text
  }

  /**
   * The JSON handling of `ollama_completion`: parse `ParserInput(text)`; on a decode
   * error, hand the whole answer to `convert_to_json`, whose exception lands in the
   * outer handler.
   */
  function SelectJson<J>(text: string, loads: string -> Parse<J>, convert: string -> Result<J, string>): (r: CompletionResult<J>)
    ensures !r.TextAnswer?
    ensures loads(ParserInput(text)).Parsed? ==> r == Structured(loads(ParserInput(text)).value)
    ensures loads(ParserInput(text)).DecodeError? && convert(text).Success? ==> r == Structured(convert(text).value)
    ensures r.ErrorMapping? <==> loads(ParserInput(text)).DecodeError? && convert(text).Failure?
    ensures r.ErrorMapping? ==> r.error == CompletionErrorPrefix + convert(text).error
  {
    match loads(ParserInput(text))
    case Parsed(v) => Structured(v)
    case DecodeError(_) =>
      match convert(text)
      case Success(v) => Structured(v)
      case Failure(e) => ErrorMapping(CompletionErrorPrefix + e)
  }

  /** `ollama_completion` as a function of the messages and of what the server and the parsers do. */
  function Completion<J>(
    messages: seq<Message>, stream: bool, generate: string -> PostReply, format: ResponseFormat,
    loads: string -> Parse<J>, convert: string -> Result<J, string>): (r: CompletionResult<J>)
    ensures r.ErrorMapping? ==> |CompletionErrorPrefix| <= |r.error| && r.error[..|CompletionErrorPrefix|] == CompletionErrorPrefix
    ensures !WantsJson(format) ==> !r.Structured?
    ensures WantsJson(format) ==> !r.TextAnswer?
    ensures ReplyText(generate(FlatPrompt(messages)), stream).Failure? ==>
      r == ErrorMapping(CompletionErrorPrefix + ReplyText(generate(FlatPrompt(messages)), stream).error)
    ensures !WantsJson(format) && ReplyText(generate(FlatPrompt(messages)), stream).Success? ==>
      r == TextAnswer(ReplyText(generate(FlatPrompt(messages)), stream).value)
    ensures WantsJson(format) && ReplyText(generate(FlatPrompt(messages)), stream).Success? ==>
      r == SelectJson(ReplyText(generate(FlatPrompt(messages)), stream).value, loads, convert)
  {
    match ReplyText(generate(FlatPrompt(messages)), stream)
    case Failure(e) => ErrorMapping(CompletionErrorPrefix + e)
    case Success(text) =>
      if WantsJson(format) then SelectJson(text, loads, convert) else TextAnswer(text)
  }

  /** The body of `ollama_completion`, step by step: flatten, post, read the reply, handle JSON. */
  method OllamaCompletion<J>(
    messages: seq<Message>, stream: bool, generate: string -> PostReply, format: ResponseFormat,
    loads: string -> Parse<J>, convert: string -> Result<J, string>) returns (r: CompletionResult<J>)
    ensures r == Completion(messages, stream, generate, format, loads, convert)
  {
    var prompt := Flatten(messages);
    var reply := generate(prompt);
    var result: string;
    match reply {
      case PostRaised(e) =>
        return ErrorMapping(CompletionErrorPrefix + e);
      case Reply(status, text, body, lines) =>
        if stream {
          var streamed, _ := ReadStream(lines);
          if streamed.Failure? {
            return ErrorMapping(CompletionErrorPrefix + streamed.error);
          }
          result := streamed.value;
        } else if status == 200 {
          if body.BadBody? {
            return ErrorMapping(CompletionErrorPrefix + body.error);
          }
          result := body.response.GetOr("");
        } else {
          return ErrorMapping(CompletionErrorPrefix + ("Ollama API error: " + NatToString(status) + " - " + text));
        }
    }
    if WantsJson(format) {
      r := SelectJson(result, loads, convert);
    } else {
      r := TextAnswer(result);
    }
  }

  // ---------------------------------------------------------------------------
  // Question-level helpers
  // ---------------------------------------------------------------------------

  /** The collaborators of the completion: the server, the two parsers, the two templates and the skills format. */
  datatype OllamaBackend<J> = OllamaBackend(
    generate: string -> PostReply,
    loads: string -> Parse<J>,
    convert: string -> Result<J, string>,
    answerTemplate: (string, string) -> Result<string, string>,
    skillsTemplate: string -> Result<string, string>,
    skillsFormat: ResponseFormat)

  const SkillsErrorPrefix: string := "Error occurred while extracting skills from job description using Ollama: "

  /** `ollama_extract_skills`: the completion's result unchanged, or an error mapping when the template raises. */
  function OllamaExtractSkills<J>(jobDescription: string, stream: bool, b: OllamaBackend<J>): (r: CompletionResult<J>)
    ensures b.skillsTemplate(jobDescription).Failure? ==>
      r == ErrorMapping(SkillsErrorPrefix + b.skillsTemplate(jobDescription).error)
    ensures b.skillsTemplate(jobDescription).Success? ==>
      r == Completion([UserMessage(b.skillsTemplate(jobDescription).value)], stream,
                      b.generate, b.skillsFormat, b.loads, b.convert)
  {
    match b.skillsTemplate(jobDescription)
    case Failure(e) => ErrorMapping(SkillsErrorPrefix + e)
    case Success(prompt) =>
      Completion([UserMessage(prompt)], stream, b.generate, b.skillsFormat, b.loads, b.convert)
  }

  /** The arguments of `answer_question`; an omitted one is None. */
  datatype Question = Question(
    text: string,
    options: Option<seq<string>>,
    questionType: string,
    jobDescription: Option<string>,
    aboutCompany: Option<string>,
    userInformation: Option<string>)

  /** `user_information_all or "N/A"`. */
  function ProfileText(info: Option<string>): string
  {
    if info.Some? && info.value != "" then info.value else "N/A"
  }

  /** A context field is used when it is given, non-empty and not the sentinel "Unknown". */
  predicate Provided(field: Option<string>)
  {
    field.Some? && field.value != "" && field.value != "Unknown"
  }

  function Section(header: string, field: Option<string>): string
  {
    if Provided(field) then header + field.value else ""
  }

  const JobHeader: string := "\nJob Description:\n"
  const CompanyHeader: string := "\nAbout the Company:\n"
  const OptionsHeader: string := "\nOptions: "

  predicate IsSelect(questionType: string)
  {
    questionType == "single_select" || questionType == "multiple_select"
  }

  /** The options clause: present only for a select question with a non-empty list. */
  function OptionsClause(options: Option<seq<string>>, questionType: string): (clause: string)
    ensures clause != "" <==> options.Some? && |options.value| > 0 && IsSelect(questionType)
    ensures clause != "" ==> clause == OptionsHeader + Join(options.value, ", ")
  {
    if options.Some? && |options.value| > 0 && IsSelect(questionType) then
      OptionsHeader + Join(options.value, ", ")
    else ""
  }

  /** The prompt of `ollama_answer_question`, or the exception the template raised. */
  function AnswerPrompt(q: Question, template: (string, string) -> Result<string, string>): (r: Result<string, string>)
    ensures r.Failure? <==> template(ProfileText(q.userInformation), q.text).Failure?
    ensures r.Failure? ==> r.error == template(ProfileText(q.userInformation), q.text).error
  {
    match template(ProfileText(q.userInformation), q.text)
    case Failure(e) => Failure(e)
    case Success(base) =>
      Success(base + Section(JobHeader, q.jobDescription) + Section(CompanyHeader, q.aboutCompany)
                   + OptionsClause(q.options, q.questionType))
  }

  /** The prompt always begins with the filled template. */
  lemma AnswerPromptStartsWithTemplate(q: Question, template: (string, string) -> Result<string, string>)
    requires template(ProfileText(q.userInformation), q.text).Success?
    ensures var base := template(ProfileText(q.userInformation), q.text).value;
      var p := AnswerPrompt(q, template).value;
      |base| <= |p| && p[..|base|] == base
  {
    var base := template(ProfileText(q.userInformation), q.text).value;
    var withJob := base + Section(JobHeader, q.jobDescription);
    var withCompany := withJob + Section(CompanyHeader, q.aboutCompany);
    assert AnswerPrompt(q, template).value == withCompany + OptionsClause(q.options, q.questionType);
    PrefixOfConcat(base, Section(JobHeader, q.jobDescription));
    PrefixExtends(base, withJob, Section(CompanyHeader, q.aboutCompany));
    PrefixExtends(base, withCompany, OptionsClause(q.options, q.questionType));
  }

  /**
   * The prompt is the filled template, then `"\nJob Description:\n"` and the description
   * when one is provided, then `"\nAbout the Company:\n"` and the company text when it is
   * provided, and the options clause last.
   */
  lemma AnswerPromptLayout(q: Question, template: (string, string) -> Result<string, string>)
    requires template(ProfileText(q.userInformation), q.text).Success?
    ensures AnswerPrompt(q, template).value
      == template(ProfileText(q.userInformation), q.text).value
         + (if Provided(q.jobDescription) then JobHeader + q.jobDescription.value else "")
         + (if Provided(q.aboutCompany) then CompanyHeader + q.aboutCompany.value else "")
         + OptionsClause(q.options, q.questionType)
  {
  }

  /** A non-select question without provided context fields gets exactly the filled template. */
  lemma BareQuestionPrompt(q: Question, template: (string, string) -> Result<string, string>)
    requires template(ProfileText(q.userInformation), q.text).Success?
    requires !Provided(q.jobDescription) && !Provided(q.aboutCompany) && !IsSelect(q.questionType)
    ensures AnswerPrompt(q, template).value == template(ProfileText(q.userInformation), q.text).value
  {
    var base := template(ProfileText(q.userInformation), q.text).value;
    assert AnswerPrompt(q, template).value == base + "" + "" + "";
    EmptyRight(base, "");
  }

  /** A job description or company text that is absent, empty or "Unknown" adds nothing to the prompt. */
  lemma UnprovidedSectionsAreSkipped(q: Question, template: (string, string) -> Result<string, string>)
    ensures !Provided(q.jobDescription) ==> AnswerPrompt(q, template) == AnswerPrompt(q.(jobDescription := None), template)
    ensures !Provided(q.aboutCompany) ==> AnswerPrompt(q, template) == AnswerPrompt(q.(aboutCompany := None), template)
  {
  }

  /** For text and textarea questions the options play no part in the prompt. */
  lemma TextQuestionsIgnoreOptions(q: Question, template: (string, string) -> Result<string, string>, other: Option<seq<string>>)
    requires !IsSelect(q.questionType)
    ensures AnswerPrompt(q, template) == AnswerPrompt(q.(options := other), template)
  {
  }

  /**
   * A select question with options ends its prompt with `"\nOptions: "` and the options
   * joined by ", "; each option then sits at its offset in that list, in input order.
   */
  lemma SelectQuestionsListOptions(q: Question, template: (string, string) -> Result<string, string>, i: nat)
    requires template(ProfileText(q.userInformation), q.text).Success?
    requires IsSelect(q.questionType) && q.options.Some? && i < |q.options.value|
    ensures var listed := Join(q.options.value, ", ");
      && Offset(q.options.value, ", ", i) + |q.options.value[i]| <= |listed|
      && AnswerPrompt(q, template).value == AnswerPrompt(q.(options := None), template).value + OptionsHeader + listed
      && listed[Offset(q.options.value, ", ", i)..Offset(q.options.value, ", ", i) + |q.options.value[i]|] == q.options.value[i]
  {
    JoinPlacesParts(q.options.value, ", ", i);
  }

  const AnswerFallback: string := "Error generating answer"

  /**
   * `ollama_answer_question`: the plain completion's result unchanged (possibly its
   * error mapping), and the fallback string only when building the prompt raised.
   */
  function OllamaAnswerQuestion<J>(q: Question, stream: bool, b: OllamaBackend<J>): (r: CompletionResult<J>)
    ensures !r.Structured?
    ensures AnswerPrompt(q, b.answerTemplate).Failure? ==> r == TextAnswer(AnswerFallback)
    ensures AnswerPrompt(q, b.answerTemplate).Success? ==>
      r == Completion([UserMessage(AnswerPrompt(q, b.answerTemplate).value)], stream,
                      b.generate, NoFormat, b.loads, b.convert)
  {
    match AnswerPrompt(q, b.answerTemplate)
    case Failure(_) => TextAnswer(AnswerFallback)
    case Success(prompt) =>
      Completion([UserMessage(prompt)], stream, b.generate, NoFormat, b.loads, b.convert)
  }
}
