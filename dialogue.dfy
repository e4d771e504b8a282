/**
 * The conversation loop of the assistant's entry points: each turn takes what
 * `listen` heard, skips empty input, stops on an exit word, otherwise records
 * the user's message, updates the stored facts, refreshes the system message,
 * asks the language model and, on a reply, records it and trims the history.
 *
 * `listen` and `call_llm` are outside the model: what was heard is a parameter,
 * and the language model is a function from the message list to its reply or
 * failure. The fact store is a map field; `speak` is represented by the text
 * the turn hands to it.
 */
module Dialogue {
  import opened Options
  import opened Text
  import SystemPrompt
  import Extract

  datatype Role = System | User | Assistant

  datatype Message = Message(role: Role, content: string)

  /** What `call_llm` gives back: the reply content, or an exception. */
  datatype LlmReply = Reply(text: string) | Failure

  datatype TurnOutcome = Skipped | Exited | LlmFailed | Replied

  /** One turn of input: what `listen` returned and how the model answers. */
  datatype Exchange = Exchange(heard: Option<string>, llm: seq<Message> -> LlmReply)

  const MaxTurns: nat := 6
  /** The history bound `1 + MAX_TURNS * 2`: the system message and the 12 most recent. */
  const HistoryLimit: nat := 1 + MaxTurns * 2
  const ExitWords: set<string> := {"sair", "exit", "quit"}
  const Farewell: string := "Até logo!"
  const LlmErrorNotice: string := "Houve um erro ao contactar o modelo."

  /** `if not user: continue` skips None and the empty string. */
  predicate Heard(user: Option<string>) {
    user.Some? && user.value != ""
  }

  /** `user.lower() in {"sair", "exit", "quit"}`. */
  predicate IsExitWord(user: string) {
    LowerString(user) in ExitWords
  }

  /** The exit test ignores case. */
  lemma ExitWordIgnoresCase(user: string)
    ensures IsExitWord(user) <==> IsExitWord(LowerString(user))
  {
    LowerStringIdempotent(user);
  }

  /**
   * The exit test is exact membership after lowering: every exit word has four
   * letters, so surrounding spaces or punctuation never end the conversation.
   */
  lemma ExitWordsAreExact(user: string)
    ensures IsExitWord(user) ==> |user| == 4
    ensures IsExitWord("SAIR") && IsExitWord("Quit") && !IsExitWord(" sair") && !IsExitWord("sair.")
  {
    assert LowerString("SAIR") == "sair";
    assert LowerString("Quit") == "quit";
    assert |LowerString(" sair")| == 5 && |LowerString("sair.")| == 5;
  }

  /**
   * The history trim `messages[:1] + messages[-MAX_TURNS * 2:]` applied when the
   * list is longer than the bound: the first message is kept, followed by the
   * most recent ones, at most `HistoryLimit` messages in all.
   */
  function Trim(ms: seq<Message>): (r: seq<Message>)
    ensures |r| == if |ms| > HistoryLimit then HistoryLimit else |ms|
    ensures |ms| > 0 ==> r[0] == ms[0] && r[1..] == ms[|ms| - (|r| - 1)..]
  {
    if |ms| > HistoryLimit then ms[..1] + ms[|ms| - MaxTurns * 2..] else ms
  }

  /** Trimming a trimmed history changes nothing. */
  lemma TrimIdempotent(ms: seq<Message>)
    ensures Trim(Trim(ms)) == Trim(ms)
  {
  }

  /** The messages handed to the model: the refreshed system message, the history, then the user's message. */
  function Sent(history: seq<Message>, base: string, facts: map<string, string>, user: string): (r: seq<Message>)
    requires |history| >= 1
    ensures |r| == |history| + 1
    ensures r[0] == Message(System, SystemPrompt.BuildSystemPrompt(base, facts))
    ensures r[1..|history|] == history[1..]
    ensures r[|history|] == Message(User, user)
  {
    [Message(System, SystemPrompt.BuildSystemPrompt(base, facts))] + history[1..] + [Message(User, user)]
  }

  /** The history leads with the system message built from `facts`, and holds no other system message. */
  ghost predicate Prompted(ms: seq<Message>, base: string, facts: map<string, string>) {
    && |ms| >= 1
    && ms[0] == Message(System, SystemPrompt.BuildSystemPrompt(base, facts))
    && forall i :: 1 <= i < |ms| ==> ms[i].role != System
  }

  /** Refreshing the system message and adding the user's message keeps the history well formed. */
  lemma SentPrompted(history: seq<Message>, base: string, old_facts: map<string, string>, facts: map<string, string>, user: string)
    requires Prompted(history, base, old_facts)
    ensures Prompted(Sent(history, base, facts, user), base, facts)
  {
    var r := Sent(history, base, facts, user);
    forall i | 1 <= i < |r| ensures r[i].role != System {
      if i < |history| { assert r[i] == history[i]; }
    }
  }

  /** Adding the model's reply and trimming keeps the history well formed. */
  lemma ReplyPrompted(sent: seq<Message>, base: string, facts: map<string, string>, reply: string)
    requires Prompted(sent, base, facts)
    ensures Prompted(Trim(sent + [Message(Assistant, reply)]), base, facts)
  {
    var ms := sent + [Message(Assistant, reply)];
    var r := Trim(ms);
    forall i | 1 <= i < |r| ensures r[i].role != System {
      assert r[i] == ms[|ms| - (|r| - 1) + (i - 1)];
    }
  }

  /** The state one turn leaves behind: the history, the stored facts and whether the loop has ended. */
  datatype Session = Session(messages: seq<Message>, facts: map<string, string>, finished: bool)

  /**
   * The effect of one turn on the conversation state, as a value: skipped input
   * and an exit word leave history and facts alone, any other input refreshes
   * the facts and the history, and adds the reply when there is one.
   */
  function Advance(s: Session, base: string, ex: Exchange): (r: Session)
    requires |s.messages| >= 1
    ensures |r.messages| >= 1
    ensures !Heard(ex.heard) ==> r == s
    ensures Heard(ex.heard) && IsExitWord(ex.heard.value) ==> r == s.(finished := true)
    ensures Heard(ex.heard) && !IsExitWord(ex.heard.value) ==>
      r.finished == s.finished && r.facts == Extract.Remember(s.facts, Extract.ExtractName(ex.heard.value))
  {
    if !Heard(ex.heard) then s
    else if IsExitWord(ex.heard.value) then s.(finished := true)
    else
      var facts := Extract.Remember(s.facts, Extract.ExtractName(ex.heard.value));
      var sent := Sent(s.messages, base, facts, ex.heard.value);
      match ex.llm(sent)
      case Failure => Session(sent, facts, s.finished)
      case Reply(text) => Session(Trim(sent + [Message(Assistant, text)]), facts, s.finished)
  }

  /** A turn keeps the history led by the one system message, built from the current facts. */
  lemma AdvancePrompted(s: Session, base: string, ex: Exchange)
    requires Prompted(s.messages, base, s.facts)
    ensures Prompted(Advance(s, base, ex).messages, base, Advance(s, base, ex).facts)
  {
    if Heard(ex.heard) && !IsExitWord(ex.heard.value) {
      var facts := Extract.Remember(s.facts, Extract.ExtractName(ex.heard.value));
      var sent := Sent(s.messages, base, facts, ex.heard.value);
      SentPrompted(s.messages, base, s.facts, facts, ex.heard.value);
      if ex.llm(sent).Reply? {
        ReplyPrompted(sent, base, facts, ex.llm(sent).text);
      }
    }
  }

  /** The state after the turns of `script`, taken in order from `s`. */
  function Replay(s: Session, base: string, script: seq<Exchange>): (r: Session)
    requires |s.messages| >= 1
    ensures |r.messages| >= 1
    decreases |script|
  {
    if script == [] then s else Advance(Replay(s, base, script[..|script| - 1]), base, script[|script| - 1])
  }

  /** Every sequence of turns keeps the history led by the one system message, built from the current facts. */
  lemma {:induction false} ReplayPrompted(s: Session, base: string, script: seq<Exchange>)
    requires Prompted(s.messages, base, s.facts)
    ensures Prompted(Replay(s, base, script).messages, base, Replay(s, base, script).facts)
    decreases |script|
  {
    if script != [] {
      ReplayPrompted(s, base, script[..|script| - 1]);
      AdvancePrompted(Replay(s, base, script[..|script| - 1]), base, script[|script| - 1]);
    }
  }

  /** Input that is skipped never changes the state, however many such turns there are. */
  lemma {:induction false} ReplaySkipped(s: Session, base: string, script: seq<Exchange>)
    requires |s.messages| >= 1
    requires forall i :: 0 <= i < |script| ==> !Heard(script[i].heard)
    ensures Replay(s, base, script) == s
    decreases |script|
  {
    if script != [] {
      ReplaySkipped(s, base, script[..|script| - 1]);
    }
  }

  class Conversation {
    const base: string
    var messages: seq<Message>
    var facts: map<string, string>
    var finished: bool

    /** The system message leads and shows the current facts; no other message is a system message. */
    ghost predicate Valid()
      reads this
    {
      Prompted(messages, base, facts)
    }

    /** `messages = [{"role": "system", "content": build_system_prompt()}]`. */
    constructor (base: string, facts: map<string, string>)
      ensures Valid() && !finished
      ensures this.base == base && this.facts == facts
      ensures messages == [Message(System, SystemPrompt.BuildSystemPrompt(base, facts))]
    {
      this.base := base;
      this.facts := facts;
      messages := [Message(System, SystemPrompt.BuildSystemPrompt(base, facts))];
      finished := false;
    }

    /** One iteration of the loop in `main`; `spoken` is the text passed to `speak`. */
    method Turn(heard: Option<string>, llm: seq<Message> -> LlmReply) returns (outcome: TurnOutcome, spoken: Option<string>)
      requires Valid() && !finished
      modifies this
      ensures Valid()
      ensures !Heard(heard) ==>
        outcome == Skipped && spoken == None && !finished
        && messages == old(messages) && facts == old(facts)
      ensures Heard(heard) && IsExitWord(heard.value) ==>
        outcome == Exited && spoken == Some(Farewell) && finished
        && messages == old(messages) && facts == old(facts)
      ensures Heard(heard) && !IsExitWord(heard.value) ==>
        && !finished
        && facts == Extract.Remember(old(facts), Extract.ExtractName(heard.value))
        && var sent := Sent(old(messages), base, facts, heard.value);
           if llm(sent).Failure? then
             outcome == LlmFailed && spoken == Some(LlmErrorNotice) && messages == sent
           else
             outcome == Replied && spoken == Some(llm(sent).text)
             && messages == Trim(sent + [Message(Assistant, llm(sent).text)])
      ensures Session(messages, facts, finished) == Advance(Session(old(messages), old(facts), false), base, Exchange(heard, llm))
    {
      if !Heard(heard) {
        return Skipped, None;
      }
      var user := heard.value;
      if LowerString(user) in ExitWords {
        finished := true;
        return Exited, Some(Farewell);
      }
      var name := Extract.ExtractUserFacts(user);
      var old_facts := facts;
      facts := Extract.Remember(facts, name);
      var sent := Sent(messages, base, facts, user);
      SentPrompted(messages, base, old_facts, facts, user);
      // `messages.append(...)`, then `messages[0] = ...` with the refreshed prompt.
      messages := sent;
      var reply := llm(sent);
      if reply.Failure? {
        return LlmFailed, Some(LlmErrorNotice);
      }
      ReplyPrompted(sent, base, facts, reply.text);
      messages := Trim(sent + [Message(Assistant, reply.text)]);
      outcome, spoken := Replied, Some(reply.text);
    }

    /**
     * The `while True` loop of `main` over a finite script of turns: it stops at
     * the first exit word, or when the script is used up.
     */
    method Run(script: seq<Exchange>) returns (consumed: nat)
      requires Valid() && !finished
      modifies this
      ensures Valid() && consumed <= |script|
      ensures finished <==> consumed > 0 && Heard(script[consumed - 1].heard) && IsExitWord(script[consumed - 1].heard.value)
      ensures !finished ==> consumed == |script|
      ensures forall i :: 0 <= i < consumed - 1 ==> !(Heard(script[i].heard) && IsExitWord(script[i].heard.value))
      ensures Session(messages, facts, finished) == Replay(Session(old(messages), old(facts), false), base, script[..consumed])
    {
      ghost var start := Session(messages, facts, false);
      consumed := 0;
      while consumed < |script| && !finished
        invariant Valid() && consumed <= |script|
        invariant finished <==> consumed > 0 && Heard(script[consumed - 1].heard) && IsExitWord(script[consumed - 1].heard.value)
        invariant forall i :: 0 <= i < consumed - 1 ==> !(Heard(script[i].heard) && IsExitWord(script[i].heard.value))
        invariant Session(messages, facts, finished) == Replay(start, base, script[..consumed])
      {
        ghost var before := Session(messages, facts, finished);
        var _, _ := Turn(script[consumed].heard, script[consumed].llm);
        assert Exchange(script[consumed].heard, script[consumed].llm) == script[consumed];
        assert script[..consumed + 1][..consumed] == script[..consumed];
        assert Replay(start, base, script[..consumed + 1]) == Advance(before, base, script[consumed]);
        consumed := consumed + 1;
      }
    }
  }
}
