/** The message list sent to the completion provider (main.py:81-97):
    the persona as the system entry, each remembered exchange as a user
    entry and an assistant entry, and the new message last. */
module PromptAssembly {

  datatype Role = System | User | Assistant

  /** One `{"role": ..., "content": ...}` entry. */
  datatype Message = Message(role: Role, content: string)

  /** The fixed system prompt of main.py:90. The functions below take the
      persona as a parameter, so that what they promise holds of this text
      and of any other. */
  const Persona: string :=
    "あなたは感情に寄り添う優しいカウンセラーです。ユーザーの話に共感し、安心させるような返答をしてください。"

  /** The model named in the completion request (main.py:93). */
  const Model: string := "gpt-3.5-turbo"

  /** The entries the loop of main.py:82-84 produces for a history. */
  function Turns(history: seq<(string, string)>): (r: seq<Message>)
    ensures |r| == 2 * |history|
  {
    if history == [] then []
    else
      var last := history[|history| - 1];
      Turns(history[..|history| - 1]) + [Message(User, last.0), Message(Assistant, last.1)]
  }

  /** For each pair, a user entry with the question then an assistant entry
      with the answer, in history order. */
  lemma {:induction false} TurnsAt(history: seq<(string, string)>, i: nat)
    requires i < |history|
    ensures Turns(history)[2 * i] == Message(User, history[i].0)
    ensures Turns(history)[2 * i + 1] == Message(Assistant, history[i].1)
  {
    if i < |history| - 1 {
      var front := history[..|history| - 1];
      TurnsAt(front, i);
      assert front[i] == history[i];
    }
  }

  /** The `messages` argument of the completion request. */
  function Prompt(persona: string, history: seq<(string, string)>, userMsg: string): (r: seq<Message>)
    ensures |r| == 2 * |history| + 2
  {
    [Message(System, persona)] + Turns(history) + [Message(User, userMsg)]
  }

  /** Entries `1 + 2i` and `2 + 2i` of the request are the question (user)
      and the answer (assistant) of remembered exchange `i`. */
  lemma PromptAt(persona: string, history: seq<(string, string)>, userMsg: string, i: nat)
    requires i < |history|
    ensures Prompt(persona, history, userMsg)[1 + 2 * i] == Message(User, history[i].0)
    ensures Prompt(persona, history, userMsg)[2 + 2 * i] == Message(Assistant, history[i].1)
  {
    var t := Turns(history);
    TurnsAt(history, i);
    assert Prompt(persona, history, userMsg)[1 + 2 * i] == t[2 * i];
    assert Prompt(persona, history, userMsg)[2 + 2 * i] == t[2 * i + 1];
  }

  /** The shape of the request: the persona first, the new message last,
      and between them each remembered exchange as its question (user) and
      its answer (assistant), in history order, none dropped. */
  lemma PromptShape(persona: string, history: seq<(string, string)>, userMsg: string)
    ensures var r := Prompt(persona, history, userMsg);
            && |r| == 2 * |history| + 2
            && r[0] == Message(System, persona)
            && r[|r| - 1] == Message(User, userMsg)
            && forall i :: 0 <= i < |history| ==>
                 r[1 + 2 * i] == Message(User, history[i].0) && r[2 + 2 * i] == Message(Assistant, history[i].1)
  {
    forall i | 0 <= i < |history|
      ensures Prompt(persona, history, userMsg)[1 + 2 * i] == Message(User, history[i].0)
      ensures Prompt(persona, history, userMsg)[2 + 2 * i] == Message(Assistant, history[i].1)
    {
      PromptAt(persona, history, userMsg, i);
    }
  }

  /** Every entry between the system entry and the new message is the
      question or the answer of a remembered exchange, and only the system
      entry has the system role. */
  lemma PromptRoles(persona: string, history: seq<(string, string)>, userMsg: string, k: nat)
    requires k < |Prompt(persona, history, userMsg)|
    ensures Prompt(persona, history, userMsg)[k].role == System <==> k == 0
    ensures 0 < k < 2 * |history| + 1 ==>
              Prompt(persona, history, userMsg)[k] ==
                (if k % 2 == 1 then Message(User, history[(k - 1) / 2].0)
                 else Message(Assistant, history[(k - 2) / 2].1))
  {
    var r := Prompt(persona, history, userMsg);
    PromptShape(persona, history, userMsg);
    if 0 < k < 2 * |history| + 1 {
      if k % 2 == 1 {
        var i := (k - 1) / 2;
        assert k == 1 + 2 * i && i < |history|;
        assert r[k] == Message(User, history[i].0);
      } else {
        var i := (k - 2) / 2;
        assert k == 2 + 2 * i && i < |history|;
        assert r[k] == Message(Assistant, history[i].1);
      }
    }
  }

  /** The list building of main.py:81-97: the loop appends two entries per
      remembered exchange, then the new message is appended, and the system
      entry is put in front. */
  method AssembleMessages(persona: string, history: seq<(string, string)>, userMsg: string) returns (messages: seq<Message>)
    ensures messages == Prompt(persona, history, userMsg)
  {
    var chatHistory: seq<Message> := [];
    for i := 0 to |history|
      invariant chatHistory == Turns(history[..i])
    {
      var (q, a) := history[i];
      assert history[..i + 1][..i] == history[..i];
      chatHistory := chatHistory + [Message(User, q)];
      chatHistory := chatHistory + [Message(Assistant, a)];
    }
    assert history[..|history|] == history;
    chatHistory := chatHistory + [Message(User, userMsg)];
    messages := [Message(System, persona)] + chatHistory;
  }
}
