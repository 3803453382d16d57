/** The grounded chat: the send guard, the user/bot message sequence around
    one request, and the extraction of web-or-maps grounding sources. The
    remote call is split out: `BeginSend` builds the request, `FinishSend`
    takes its response (None when it throws). */
module DataInsights {
  import opened Wrappers
  import opened Text
  import opened Sequences
  import GeminiService

  datatype Sender = User | Bot

  /** A grounding source as the component builds it; either field may be
      undefined in the response, hence `Option`. */
  datatype Source = Source(uri: Option<string>, title: Option<string>)

  datatype ChatMessage = ChatMessage(sender: Sender, text: string, sources: Option<seq<Source>>)

  /** The `web` or `maps` entry of a grounding chunk. */
  datatype Ref = Ref(uri: Option<string>, title: Option<string>)

  datatype GroundingChunk = GroundingChunk(web: Option<Ref>, maps: Option<Ref>)

  /** What the handler reads of a response: its text, and the grounding
      chunks of the first candidate, if any. */
  datatype Response = Response(text: string, groundingChunks: Option<seq<GroundingChunk>>)

  const Greeting: string := "Hello! How can I help you analyze your data today? Ask me anything."
  const Apology: string := "Sorry, I encountered an error. Please try again."

  /** `chunk.web?.uri` and friends: a missing entry reads as undefined. */
  function UriOf(ref: Option<Ref>): Option<string> {
    if ref.Some? then ref.value.uri else None
  }

  function TitleOf(ref: Option<Ref>): Option<string> {
    if ref.Some? then ref.value.title else None
  }

  /** The `map` step: each field prefers the web entry when it is truthy. */
  function ToSource(chunk: GroundingChunk): (s: Source)
    ensures Truthy(UriOf(chunk.web)) ==> s.uri == UriOf(chunk.web)
    ensures !Truthy(UriOf(chunk.web)) ==> s.uri == UriOf(chunk.maps)
    ensures Truthy(TitleOf(chunk.web)) ==> s.title == TitleOf(chunk.web)
    ensures !Truthy(TitleOf(chunk.web)) ==> s.title == TitleOf(chunk.maps)
  {
    Source(Or(UriOf(chunk.web), UriOf(chunk.maps)), Or(TitleOf(chunk.web), TitleOf(chunk.maps)))
  }

  /** The `map` then `filter(source => source.uri)` over the chunks. */
  function SourcesOf(chunks: seq<GroundingChunk>): (r: seq<Source>)
    ensures |r| <= |chunks|
    ensures forall k :: 0 <= k < |r| ==> Truthy(r[k].uri)
    ensures forall s :: s in r <==> s in MapSources(chunks) && Truthy(s.uri)
    ensures forall s :: multiset(r)[s] == if Truthy(s.uri) then multiset(MapSources(chunks))[s] else 0
    decreases |chunks|
  {
    if chunks == [] then []
    else
      var rest := SourcesOf(chunks[1..]);
      var s := ToSource(chunks[0]);
      MapSourcesCons(chunks);
      KeepTruthyStep(s, MapSources(chunks[1..]), rest);
      if Truthy(s.uri) then [s] + rest else rest
  }

  lemma MapSourcesCons(chunks: seq<GroundingChunk>)
    requires chunks != []
    ensures MapSources(chunks) == [ToSource(chunks[0])] + MapSources(chunks[1..])
  {
    assert forall k :: 0 <= k < |chunks[1..]| ==> chunks[1..][k] == chunks[k + 1];
  }

  /** One step of `filter(source => source.uri)`: keeping or dropping the
      head preserves the membership and multiplicity relations. */
  lemma KeepTruthyStep(x: Source, tail: seq<Source>, kept: seq<Source>)
    requires forall t :: t in kept <==> t in tail && Truthy(t.uri)
    requires forall t :: multiset(kept)[t] == if Truthy(t.uri) then multiset(tail)[t] else 0
    ensures var r := if Truthy(x.uri) then [x] + kept else kept;
      && (forall t :: t in r <==> t in [x] + tail && Truthy(t.uri))
      && (forall t :: multiset(r)[t] == if Truthy(t.uri) then multiset([x] + tail)[t] else 0)
  {
  }

  /** The source list of a response: empty without grounding chunks. */
  function Sources(chunks: Option<seq<GroundingChunk>>): (r: seq<Source>)
    ensures chunks.None? ==> r == []
  {
    if chunks.Some? then SourcesOf(chunks.value) else []
  }

  function MapSources(chunks: seq<GroundingChunk>): (r: seq<Source>)
    ensures |r| == |chunks| && forall k :: 0 <= k < |chunks| ==> r[k] == ToSource(chunks[k])
  {
    seq(|chunks|, k requires 0 <= k < |chunks| => ToSource(chunks[k]))
  }

  /** The sources keep the order of the chunks they come from. */
  lemma {:induction false} SourcesKeepOrder(chunks: seq<GroundingChunk>)
    ensures IsSubsequence(SourcesOf(chunks), MapSources(chunks))
    decreases |chunks|
  {
    if chunks != [] {
      SourcesKeepOrder(chunks[1..]);
      var m := MapSources(chunks);
      assert m[1..] == MapSources(chunks[1..]);
      var rest := SourcesOf(chunks[1..]);
      if Truthy(ToSource(chunks[0]).uri) {
        assert ([ToSource(chunks[0])] + rest)[1..] == rest;
      } else if rest != [] {
        assert IsSubsequence(rest, m[1..]);
      }
    }
  }

  /** A link shows its title when non-empty, otherwise its uri. */
  function LinkLabel(s: Source): (shown: Option<string>)
    ensures Truthy(s.title) ==> shown == s.title
    ensures !Truthy(s.title) ==> shown == s.uri
  {
    Or(s.title, s.uri)
  }

  /** Every listed source shows a non-empty label: its title, or else its
      uri, which the filter guarantees is truthy. */
  lemma SourceLabelsShown(chunks: Option<seq<GroundingChunk>>)
    ensures forall s :: s in Sources(chunks) ==> Truthy(LinkLabel(s))
  {
  }

  // ---------------------------------------------------------------------------
  // Sending
  // ---------------------------------------------------------------------------

  datatype Chat = Chat(messages: seq<ChatMessage>, input: string, isLoading: bool,
                       useSearch: bool, useMaps: bool, useThinking: bool)

  const Initial: Chat := Chat([ChatMessage(Bot, Greeting, None)], "", false, false, false, false)

  /** The guard of `handleSendMessage`. */
  predicate CanSend(c: Chat) {
    Trim(c.input) != "" && !c.isLoading
  }

  /** `handleSendMessage` up to the `await`: append the user's message, clear
      the input, set loading, and build the request from the input as it was. */
  function BeginSend(c: Chat): (r: (Chat, Option<GeminiService.GroundedRequest>))
    ensures !CanSend(c) ==> r == (c, None)
    ensures CanSend(c) ==>
      && r.0 == c.(messages := c.messages + [ChatMessage(User, c.input, None)], input := "", isLoading := true)
      && r.1 == Some(GeminiService.GroundedRequestFor(c.input, c.useSearch, c.useMaps, c.useThinking))
  {
    if !CanSend(c) then (c, None)
    else (c.(messages := c.messages + [ChatMessage(User, c.input, None)], input := "", isLoading := true),
          Some(GeminiService.GroundedRequestFor(c.input, c.useSearch, c.useMaps, c.useThinking)))
  }

  /** The reply the handler appends: the response with its sources, or the
      fixed apology when the call throws. */
  function Reply(response: Option<Response>): (m: ChatMessage)
    ensures m.sender == Bot
    ensures response.Some? ==> m.text == response.value.text && m.sources == Some(Sources(response.value.groundingChunks))
    ensures response.None? ==> m.text == Apology && m.sources.None?
  {
    match response
    case Some(resp) => ChatMessage(Bot, resp.text, Some(Sources(resp.groundingChunks)))
    case None => ChatMessage(Bot, Apology, None)
  }

  /** The rest of `handleSendMessage`: append the reply, clear loading. */
  function FinishSend(c: Chat, response: Option<Response>): (r: Chat)
    ensures !r.isLoading
    ensures r.messages == c.messages + [Reply(response)]
    ensures r.(messages := c.messages, isLoading := c.isLoading) == c
  {
    c.(messages := c.messages + [Reply(response)], isLoading := false)
  }

  /** A blank input or a pending reply makes sending a no-op. */
  lemma BlankOrLoadingIsNoOp(c: Chat)
    requires Trim(c.input) == "" || c.isLoading
    ensures BeginSend(c).0 == c && BeginSend(c).1.None?
  {
  }

  /** One send, start to end: the user's message and then exactly one bot
      message are appended, the input is cleared and loading is over. */
  lemma SendAppendsExchange(c: Chat, response: Option<Response>)
    requires CanSend(c)
    ensures var after := FinishSend(BeginSend(c).0, response);
      && after.messages == c.messages + [ChatMessage(User, c.input, None), Reply(response)]
      && after.input == "" && !after.isLoading
      && BeginSend(BeginSend(c).0).1.None?
  {
    SendAppendsMessages(c, response);
    SendRefusesSecond(c);
  }

  lemma SendAppendsMessages(c: Chat, response: Option<Response>)
    requires CanSend(c)
    ensures var after := FinishSend(BeginSend(c).0, response);
      && after.messages == c.messages + [ChatMessage(User, c.input, None), Reply(response)]
      && after.input == "" && !after.isLoading
  {
    var user := ChatMessage(User, c.input, None);
    assert c.messages + [user] + [Reply(response)] == c.messages + [user, Reply(response)];
  }

  lemma SendRefusesSecond(c: Chat)
    requires CanSend(c)
    ensures BeginSend(BeginSend(c).0).1.None?
  {
    assert BeginSend(c).0.isLoading;
  }

  /** The chat starts with the greeting alone. */
  lemma InitialChat()
    ensures |Initial.messages| == 1 && Initial.messages[0].sender == Bot
    ensures Initial.messages[0].text == Greeting && Initial.messages[0].sources.None?
    ensures !CanSend(Initial)
  {
  }
}
