/** The chat panel of a project (src/components/workspace/ChatbotPanel.tsx):
    the history it keeps for the project, the optimistic entries it adds
    before the backend confirms them, and the way each confirmation or
    failure rewrites the history. Each resolved callback is one sequential
    call on the panel. */
module ChatbotPanel {
  import opened Wrappers
  import opened JsString
  import opened ApiTypes
  import opened Api

  type History = seq<ChatMessageResponse>

  /** `msg.id.toString()`. */
  function IdText(id: MessageId): string {
    match id
    case ServerId(n) => IntToString(n)
    case TempId(t) => t
  }

  const UserTempPrefix := "temp-user-"
  const AiTempPrefix := "temp-ai-"

  /** `temp-user-${Date.now()}` */
  function UserTempId(nowMs: nat): string {
    UserTempPrefix + NatToString(nowMs)
  }

  /** `temp-ai-${Date.now()}` */
  function AiTempId(nowMs: nat): string {
    AiTempPrefix + NatToString(nowMs)
  }

  predicate IsTempToken(t: string) {
    StartsWith(t, UserTempPrefix) || StartsWith(t, AiTempPrefix)
  }

  /** Both temporary id forms are temp tokens. */
  lemma {:induction false} TempIdsAreTempTokens(nowMs: nat)
    ensures IsTempToken(UserTempId(nowMs)) && IsTempToken(AiTempId(nowMs))
  {
    assert UserTempId(nowMs)[..|UserTempPrefix|] == UserTempPrefix;
    assert AiTempId(nowMs)[..|AiTempPrefix|] == AiTempPrefix;
  }

  /** A temp token is never the text of a numeric backend id: the decimal
      text of a number starts with '-' or a digit, a temp token with 't'. */
  lemma {:induction false} TempTokenIsNoServerId(t: string, n: int)
    requires IsTempToken(t)
    ensures IdText(ServerId(n)) != t
  {
    assert t[0] == 't' by {
      if StartsWith(t, UserTempPrefix) {
        assert t[0] == t[..|UserTempPrefix|][0];
      } else {
        assert t[0] == t[..|AiTempPrefix|][0];
      }
    }
    var s := IntToString(n);
    assert s[0] == '-' || IsDigit(s[0]);
  }

  /** The optimistic insert `[...old, message]`: one entry more, at the end,
      and every earlier entry where it was. */
  function Appended(h: History, m: ChatMessageResponse): (r: History)
    ensures |r| == |h| + 1 && r[|h|] == m
    ensures forall i :: 0 <= i < |h| ==> r[i] == h[i]
  {
    h + [m]
  }

  /** `variables.tempId` is truthy. */
  predicate HasTempId(tempId: Option<string>) {
    tempId.Some? && tempId.value != ""
  }

  /** `oldHistory.map(msg => msg.id.toString() === t ? saved : msg)` */
  function ReplacedById(h: History, t: string, saved: ChatMessageResponse): (r: History)
    ensures |r| == |h|
    ensures forall i :: 0 <= i < |h| ==> r[i] == (if IdText(h[i].id) == t then saved else h[i])
  {
    seq(|h|, i requires 0 <= i < |h| => if IdText(h[i].id) == t then saved else h[i])
  }

  /** `oldHistory.filter(msg => msg.id.toString() !== t)` */
  function RemovedById(h: History, t: string): (r: History)
    ensures |r| <= |h|
    ensures forall i :: 0 <= i < |r| ==> IdText(r[i].id) != t
  {
    if h == [] then []
    else
      var last := h[|h| - 1];
      RemovedById(h[..|h| - 1], t) + (if IdText(last.id) != t then [last] else [])
  }

  /** The removal keeps exactly the entries that do not carry `t`. */
  lemma {:induction false} RemovedByIdMembers(h: History, t: string)
    ensures forall m :: m in RemovedById(h, t) <==> m in h && IdText(m.id) != t
  {
    if h != [] {
      var init := h[..|h| - 1];
      RemovedByIdMembers(init, t);
      assert h == init + [h[|h| - 1]];
    }
  }

  /** The save acknowledgement: with a temp id, the entries carrying it are
      replaced by the saved message; without one, it is appended. */
  function Acknowledged(h: History, tempId: Option<string>, saved: ChatMessageResponse): History {
    if HasTempId(tempId) then ReplacedById(h, tempId.value, saved) else Appended(h, saved)
  }

  /** The save failure: entries carrying the temp id are removed; without a
      temp id the history is left as it is. */
  function RolledBack(h: History, tempId: Option<string>): History {
    if HasTempId(tempId) then RemovedById(h, tempId.value) else h
  }

  /** No entry of `h` carries the id text `t`. */
  predicate Absent(h: History, t: string) {
    forall i :: 0 <= i < |h| ==> IdText(h[i].id) != t
  }

  /** With a temp id: same length, the carriers of the id become `saved`, and
      every other entry keeps its value and position. Without: the saved
      message is appended. */
  lemma {:induction false} AcknowledgeEffect(h: History, tempId: Option<string>, saved: ChatMessageResponse)
    ensures HasTempId(tempId) ==> |Acknowledged(h, tempId, saved)| == |h|
    ensures HasTempId(tempId) ==> forall i :: 0 <= i < |h| ==>
              Acknowledged(h, tempId, saved)[i] == (if IdText(h[i].id) == tempId.value then saved else h[i])
    ensures !HasTempId(tempId) ==> Acknowledged(h, tempId, saved) == h + [saved]
  {
  }

  /** Acknowledging a temp id the history does not carry changes nothing. */
  lemma {:induction false} AcknowledgeAbsentIsIdentity(h: History, t: string, saved: ChatMessageResponse)
    requires t != "" && Absent(h, t)
    ensures Acknowledged(h, Some(t), saved) == h
  {
  }

  /** Removing an id the history does not carry changes nothing. */
  lemma {:induction false} RemoveAbsentIsIdentity(h: History, t: string)
    requires Absent(h, t)
    ensures RemovedById(h, t) == h
  {
    if h != [] {
      var init := h[..|h| - 1];
      var last := h[|h| - 1];
      assert Absent(init, t) by {
        forall i | 0 <= i < |init| ensures IdText(init[i].id) != t {
          assert init[i] == h[i];
        }
      }
      RemoveAbsentIsIdentity(init, t);
      assert IdText(last.id) != t;
      assert RemovedById(h, t) == RemovedById(init, t) + [last];
      assert init + [last] == h;
    }
  }

  /** Removal works entry by entry: that of a concatenation is the
      concatenation of the removals, so the kept entries keep their order. */
  lemma {:induction false} RemoveDistributes(a: History, b: History, t: string)
    ensures RemovedById(a + b, t) == RemovedById(a, t) + RemovedById(b, t)
    decreases |b|
  {
    if b == [] {
      assert a + b == a;
    } else {
      var b' := b[..|b| - 1];
      var last := b[|b| - 1];
      assert (a + b)[..|a + b| - 1] == a + b';
      assert (a + b)[|a + b| - 1] == last;
      RemoveDistributes(a, b', t);
    }
  }

  /** Removal of the single entry `m` when it carries `t`, else nothing. */
  lemma {:induction false} RemoveSingle(m: ChatMessageResponse, t: string)
    ensures RemovedById([m], t) == if IdText(m.id) == t then [] else [m]
  {
    assert [m][..0] == [];
  }

  /** The confirmed entries (those with a backend id), in order. */
  function Confirmed(h: History): History {
    if h == [] then []
    else Confirmed(h[..|h| - 1]) + (if h[|h| - 1].id.ServerId? then [h[|h| - 1]] else [])
  }

  /** A rollback by a temp token leaves the confirmed entries exactly as
      they were, in order. */
  lemma {:induction false} RollbackKeepsConfirmed(h: History, t: string)
    requires IsTempToken(t)
    ensures Confirmed(RemovedById(h, t)) == Confirmed(h)
  {
    if h != [] {
      var init := h[..|h| - 1];
      var last := h[|h| - 1];
      RollbackKeepsConfirmed(init, t);
      var kept := if IdText(last.id) != t then [last] else [];
      ConfirmedAppend(RemovedById(init, t), kept);
      if last.id.ServerId? {
        TempTokenIsNoServerId(t, last.id.n);
        assert kept == [last];
      }
      RemoveSingle(last, t);
      assert Confirmed(kept) == if last.id.ServerId? then [last] else [] by {
        ConfirmedSingle(kept);
      }
    }
  }

  lemma {:induction false} ConfirmedSingle(k: History)
    requires |k| <= 1
    ensures Confirmed(k) == if k != [] && k[0].id.ServerId? then k else []
  {
    if k != [] {
      assert k[..0] == [];
    }
  }

  lemma {:induction false} ConfirmedAppend(a: History, b: History)
    ensures Confirmed(a + b) == Confirmed(a) + Confirmed(b)
    decreases |b|
  {
    if b == [] {
      assert a + b == a;
    } else {
      var b' := b[..|b| - 1];
      assert (a + b)[..|a + b| - 1] == a + b';
      assert (a + b)[|a + b| - 1] == b[|b| - 1];
      ConfirmedAppend(a, b');
    }
  }

  /** An acknowledgement by a temp token leaves every confirmed entry where
      and what it was. */
  lemma {:induction false} AcknowledgeKeepsConfirmed(h: History, t: string, saved: ChatMessageResponse, i: int)
    requires IsTempToken(t) && 0 <= i < |h| && h[i].id.ServerId?
    ensures Acknowledged(h, Some(t), saved)[i] == h[i]
  {
    TempTokenIsNoServerId(t, h[i].id.n);
  }

  /** An optimistic insert followed by its acknowledgement leaves the history
      with the saved message in the optimistic entry's place. */
  lemma {:induction false} InsertThenAcknowledge(h: History, m: ChatMessageResponse, saved: ChatMessageResponse)
    requires IdText(m.id) != "" && Absent(h, IdText(m.id))
    ensures Acknowledged(Appended(h, m), Some(IdText(m.id)), saved) == h + [saved]
  {
  }

  /** An optimistic insert followed by its rollback restores the history. */
  lemma {:induction false} InsertThenRollback(h: History, m: ChatMessageResponse)
    requires IdText(m.id) != "" && Absent(h, IdText(m.id))
    ensures RolledBack(Appended(h, m), Some(IdText(m.id))) == h
  {
    var t := IdText(m.id);
    RemoveDistributes(h, [m], t);
    RemoveAbsentIsIdentity(h, t);
    RemoveSingle(m, t);
  }

  /** Two sends in flight: rolling back the first leaves the second's entry
      in place. */
  lemma {:induction false} RollbackIsIndependent(h: History, m1: ChatMessageResponse, m2: ChatMessageResponse)
    requires IdText(m1.id) != "" && IdText(m1.id) != IdText(m2.id) && Absent(h, IdText(m1.id))
    ensures RolledBack(Appended(Appended(h, m1), m2), Some(IdText(m1.id))) == h + [m2]
  {
    var t := IdText(m1.id);
    var h1 := h + [m1];
    var h2 := h1 + [m2];
    assert h2[..|h2| - 1] == h1 && h2[|h2| - 1] == m2;
    assert h1[..|h1| - 1] == h && h1[|h1| - 1] == m1;
    RemoveAbsentIsIdentity(h, t);
    assert RemovedById(h1, t) == h;
    assert RemovedById(h2, t) == h + [m2];
  }

  /** The question a send puts: the trimmed input, unless it is only white
      space or an AI request is pending. */
  function Question(input: string, pending: bool): (q: Option<string>)
    ensures q.None? <==> pending || AllWhitespace(input)
    ensures q.Some? ==> q.value == Trim(input) && q.value != []
  {
    TrimEmptyIff(input);
    var trimmed := Trim(input);
    if trimmed == [] || pending then None else Some(trimmed)
  }

  /** The panel's state: the cached history of its project, the text field
      and whether an AI request is pending. */
  class ChatPanel {
    const projectId: int
    var history: History
    var userInput: string
    var aiPending: bool

    /** Mounted with the history the backend returned. */
    constructor (projectId: int, loaded: History)
      ensures this.projectId == projectId && history == loaded
      ensures userInput == "" && !aiPending
    {
      this.projectId := projectId;
      history := loaded;
      userInput := "";
      aiPending := false;
    }

    /** The text field's `onChange`. */
    method Edit(text: string)
      modifies this
      ensures userInput == text
      ensures history == old(history) && aiPending == old(aiPending)
    {
      userInput := text;
    }

    /** `handleSendMessage` and the start of the AI request: refuses a
      whitespace-only input and a send while the AI request is pending;
      otherwise clears the input, appends the optimistic user message and
      returns the save request for it (its `message` is also the question
      put to the AI). */
    method SendMessage(nowMs: nat, nowIso: string) returns (save: Option<TaggedMessage>)
      modifies this
      ensures Question(old(userInput), old(aiPending)).None? ==>
                save.None? && history == old(history) && userInput == old(userInput) && aiPending == old(aiPending)
      ensures Question(old(userInput), old(aiPending)).Some? ==>
                && save == Some(TaggedMessage(Question(old(userInput), old(aiPending)).value, 1, Some(UserTempId(nowMs))))
                && userInput == "" && aiPending
                && history == Appended(old(history), ChatMessageResponse(TempId(UserTempId(nowMs)), Question(old(userInput), old(aiPending)).value, 1, nowIso, projectId))
    {
      var q := Question(userInput, aiPending);
      if q.None? {
        save := None;
      } else {
        var trimmed := q.value;
        var tempUserMessageId := UserTempId(nowMs);
        var message := ChatMessageResponse(TempId(tempUserMessageId), trimmed, 1, nowIso, projectId);
        userInput := "";
        aiPending := true;
        history := Appended(history, message);
        save := Some(TaggedMessage(trimmed, 1, Some(tempUserMessageId)));
      }
    }

    /** The AI answered: its answer is appended optimistically and a save
      request for it is returned. */
    method AiSucceeded(answer: string, nowMs: nat, nowIso: string) returns (save: TaggedMessage)
      modifies this
      ensures !aiPending && userInput == old(userInput)
      ensures history == Appended(old(history), ChatMessageResponse(TempId(AiTempId(nowMs)), answer, 0, nowIso, projectId))
      ensures save == TaggedMessage(answer, 0, Some(AiTempId(nowMs)))
    {
      aiPending := false;
      var tempId := AiTempId(nowMs);
      history := Appended(history, ChatMessageResponse(TempId(tempId), answer, 0, nowIso, projectId));
      save := TaggedMessage(answer, 0, Some(tempId));
    }

    /** The AI request failed: only a notice; the optimistic user message
      stays in the history. */
    method AiFailed()
      modifies this
      ensures !aiPending
      ensures history == old(history) && userInput == old(userInput)
    {
      aiPending := false;
    }

    /** The backend saved a message. */
    method SaveSucceeded(variables: TaggedMessage, saved: ChatMessageResponse)
      modifies this
      ensures history == Acknowledged(old(history), variables.tempId, saved)
      ensures userInput == old(userInput) && aiPending == old(aiPending)
    {
      history := Acknowledged(history, variables.tempId, saved);
    }

    /** The backend refused to save a message. */
    method SaveFailed(variables: TaggedMessage)
      modifies this
      ensures history == RolledBack(old(history), variables.tempId)
      ensures userInput == old(userInput) && aiPending == old(aiPending)
    {
      if HasTempId(variables.tempId) {
        history := RemovedById(history, variables.tempId.value);
      }
    }
  }
}
