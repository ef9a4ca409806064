/**
 `buildAdaptaMessages` of open-sse/executors/adapta-web.ts: the system prompt moves
 into the first user message that is sent.
 */
module AdaptaMessages {
  import opened JsText

  /** "developer" counts as system; `text` is the plain text of the content. */
  datatype Role = System | User | Assistant | OtherRole
  datatype Message = Message(role: Role, text: string)

  predicate IsSent(m: Message) {
    (m.role.User? || m.role.Assistant?) && Trim(m.text) != ""
  }

  /** The messages that are sent, in order. */
  function Sent(messages: seq<Message>): seq<Message> {
    if messages == [] then []
    else
      var m := messages[|messages| - 1];
      Sent(messages[..|messages| - 1]) + (if IsSent(m) then [m] else [])
  }

  function SystemText(messages: seq<Message>): string {
    if messages == [] then ""
    else
      var prior, m := SystemText(messages[..|messages| - 1]), messages[|messages| - 1];
      if m.role.System? then prior + (if prior != "" then "\n" else "") + m.text else prior
  }

  function NonSystem(messages: seq<Message>): seq<Message> {
    if messages == [] then []
    else
      var m := messages[|messages| - 1];
      NonSystem(messages[..|messages| - 1]) + (if m.role.System? then [] else [m])
  }

  lemma {:induction false} SentIgnoresSystem(messages: seq<Message>)
    ensures Sent(NonSystem(messages)) == Sent(messages)
  {
    if messages == [] {
    } else {
      var init, m := messages[..|messages| - 1], messages[|messages| - 1];
      SentIgnoresSystem(init);
      if !m.role.System? {
        assert (NonSystem(init) + [m])[..|NonSystem(init)|] == NonSystem(init);
      } else {
        assert NonSystem(messages) == NonSystem(init);
      }
    }
  }

  predicate HasUser(sent: seq<Message>) { exists m :: m in sent && m.role.User? }

  function WithSystem(system: string, text: string): Message {
    Message(User, system + "\n\n" + text)
  }

  /** No user message is sent before this one. */
  predicate IsFirstUser(sent: seq<Message>, i: nat)
    requires i < |sent|
  {
    sent[i].role.User? && forall k :: 0 <= k < i ==> !sent[k].role.User?
  }

  /** The messages sent, with the system prompt and an empty line before the first user message and nowhere else. */
  ghost predicate Injected(adapted: seq<Message>, sent: seq<Message>, system: string) {
    && |adapted| == |sent|
    && forall i :: 0 <= i < |sent| ==>
         adapted[i] == if IsFirstUser(sent, i) && system != "" then Message(User, system + "\n\n" + sent[i].text)
                       else sent[i]
  }

  lemma FirstUserSnoc(sent: seq<Message>, m: Message, i: nat)
    requires i <= |sent|
    ensures IsFirstUser(sent + [m], i) <==> if i < |sent| then IsFirstUser(sent, i) else m.role.User? && !HasUser(sent)
    ensures HasUser(sent + [m]) <==> HasUser(sent) || m.role.User?
  {
    var all := sent + [m];
    assert all[|sent|] == m && forall k :: 0 <= k < |sent| ==> all[k] == sent[k];
    assert forall x :: x in all <==> x in sent || x == m;
  }

  lemma InjectedSnoc(adapted: seq<Message>, sent: seq<Message>, system: string, m: Message)
    requires Injected(adapted, sent, system)
    ensures var injects := system != "" && !HasUser(sent) && m.role.User?;
      Injected(adapted + [if injects then WithSystem(system, m.text) else m], sent + [m], system)
  {
    forall i: nat | i <= |sent| { FirstUserSnoc(sent, m, i); }
  }

  /** What has been adapted so far, and whether the prompt is in it. */
  ghost predicate Adapts(adapted: seq<Message>, injected: bool, sent: seq<Message>, system: string) {
    Injected(adapted, sent, system) && (injected <==> system != "" && HasUser(sent))
  }

  lemma AdaptsNext(adapted: seq<Message>, injected: bool, sent: seq<Message>, system: string, m: Message)
    requires Adapts(adapted, injected, sent, system)
    ensures var injects := !injected && system != "" && m.role.User?;
      Adapts(adapted + [if injects then WithSystem(system, m.text) else m], injected || injects, sent + [m], system)
  {
    InjectedSnoc(adapted, sent, system, m);
    FirstUserSnoc(sent, m, 0);
  }

  lemma SentNext(messages: seq<Message>, n: nat)
    requires n < |messages|
    ensures Sent(messages[..n + 1])
         == if IsSent(messages[n]) then Sent(messages[..n]) + [messages[n]] else Sent(messages[..n])
  {
    assert messages[..n + 1][..n] == messages[..n];
    assert Sent(messages[..n]) + [] == Sent(messages[..n]);
  }

  method SplitSystem(messages: seq<Message>) returns (systemText: string, rest: seq<Message>)
    ensures systemText == SystemText(messages) && rest == NonSystem(messages)
  {
    systemText, rest := "", [];
    for i := 0 to |messages|
      invariant systemText == SystemText(messages[..i]) && rest == NonSystem(messages[..i])
    {
      assert messages[..i + 1][..i] == messages[..i] && rest + [] == rest;
      if messages[i].role.System? {
        systemText := systemText + (if systemText != "" then "\n" else "") + messages[i].text;
      } else {
        rest := rest + [messages[i]];
      }
    }
    assert messages[..|messages|] == messages;
  }

  /**
   What is sent is what the client sent, in order and without blank messages; the
   system prompt, if there is one, is put before the first user message and nowhere
   else. With no user message to carry it, it is lost.
   */
  method BuildAdaptaMessages(messages: seq<Message>) returns (adapted: seq<Message>)
    ensures Injected(adapted, Sent(messages), SystemText(messages))
  {
    var systemText, rest := SplitSystem(messages);
    SentIgnoresSystem(messages);
    adapted := [];
    var systemInjected := false;
    for i := 0 to |rest|
      invariant Adapts(adapted, systemInjected, Sent(rest[..i]), systemText)
    {
      var msg := rest[i];
      SentNext(rest, i);
      if !msg.role.User? && !msg.role.Assistant? { continue; }
      if Trim(msg.text) == "" { continue; }
      AdaptsNext(adapted, systemInjected, Sent(rest[..i]), systemText, msg);
      if !systemInjected && systemText != "" && msg.role.User? {
        adapted := adapted + [WithSystem(systemText, msg.text)];
        systemInjected := true;
      } else {
        adapted := adapted + [msg];
      }
    }
    assert rest[..|rest|] == rest;
  }

  // ----- what is sent and what the prompt is, spelled out -----

  /** The messages at the places. */
  ghost predicate Picks(sent: seq<Message>, messages: seq<Message>, places: seq<nat>) {
    && |sent| == |places| && (forall p, q :: 0 <= p < q < |places| ==> places[p] < places[q])
    && forall p :: 0 <= p < |places| ==> places[p] < |messages| && sent[p] == messages[places[p]]
  }

  lemma PicksNext(kept: seq<Message>, all: seq<Message>, places: seq<nat>, n: nat)
    requires Picks(kept, all, places) && n < |all| && forall i :: i in places ==> i < n
    ensures Picks(kept + [all[n]], all, places + [n])
    ensures forall i :: i in places + [n] <==> i in places || i == n
  {
    forall p | 0 <= p < |places| ensures places[p] < n {
      assert places[p] in places;
    }
  }

  /** Messages of the user and the assistant are sent unless they are blank. */
  predicate IsToSend(m: Message) { (m.role.User? || m.role.Assistant?) && !AllSpace(m.text) }

  lemma SentNextAt(messages: seq<Message>, n: nat, places: seq<nat>) returns (next: seq<nat>)
    requires n < |messages| && Picks(Sent(messages[..n]), messages, places)
    requires forall i :: i in places <==> 0 <= i < n && IsToSend(messages[i])
    ensures Picks(Sent(messages[..n + 1]), messages, next)
    ensures forall i :: i in next <==> 0 <= i < n + 1 && IsToSend(messages[i])
  {
    SentNext(messages, n);
    NothingLeftExactly(messages[n].text);
    next := places;
    if IsToSend(messages[n]) {
      PicksNext(Sent(messages[..n]), messages, places, n);
      next := places + [n];
    }
  }

  /** Exactly those are sent, in order. */
  lemma SentAt(messages: seq<Message>) returns (places: seq<nat>)
    ensures Picks(Sent(messages), messages, places)
    ensures forall i :: i in places <==> 0 <= i < |messages| && IsToSend(messages[i])
  {
    places := [];
    for n := 0 to |messages|
      invariant Picks(Sent(messages[..n]), messages, places)
      invariant forall i :: i in places <==> 0 <= i < n && IsToSend(messages[i])
    {
      places := SentNextAt(messages, n, places);
    }
    assert messages[..|messages|] == messages;
  }

  /** The prompt: the texts of the system messages, each on a line of its own, without leading empty ones. */
  lemma PromptGrows(messages: seq<Message>, m: Message)
    ensures var prior := SystemText(messages);
      SystemText(messages + [m])
      == if !m.role.System? then prior else if prior == "" then m.text else prior + "\n" + m.text
    ensures SystemText([]) == ""
  {
    assert (messages + [m])[..|messages|] == messages;
  }
}
