/**
 * `fact_checker_agent/db/database.py`: the state a new session starts with,
 * and how a stored session's messages become the chat history shown to the
 * user. The session store itself is replaced by what a lookup returned.
 */
module SessionDb {
  import opened Options
  import Pipeline

  /** A value of the initial session state: text, or an empty object. */
  datatype StateValue = Text(text: string) | EmptyObject

  /** The empty value each pipeline key starts with. */
  function EmptyValueFor(key: string): StateValue {
    if key == "gathered_urls" || key == "final_fact_check_result" then EmptyObject else Text("")
  }

  /** `create_new_session`'s initial state. */
  function InitialState(userId: string): map<string, StateValue> {
    map[
      "user_name" := Text(userId),
      "search_query" := Text(""),
      "gathered_urls" := EmptyObject,
      "web_analysis" := Text(""),
      "video_analysis" := Text(""),
      "final_fact_check_result" := EmptyObject]
  }

  /** The initial state names the user and holds an empty value under
      exactly the keys the pipeline's stages write. */
  lemma InitialStateCoversPipeline(userId: string)
    ensures InitialState(userId)["user_name"] == Text(userId)
    ensures forall k :: k in InitialState(userId) <==> k == "user_name" || k in Pipeline.OutputKeys(Pipeline.Stages)
    ensures forall k :: k in Pipeline.OutputKeys(Pipeline.Stages) ==> InitialState(userId)[k] == EmptyValueFor(k)
  {
    Pipeline.StageOrderAndKeys();
  }

  // ---------------------------------------------------------------------------
  // get_session_history_sync
  // ---------------------------------------------------------------------------

  /** The first part of a message: one with a `text` attribute (whose value
      may be `None`), or one without. */
  datatype Part = TextPart(text: Option<string>) | OtherPart

  datatype Message = Message(role: string, parts: seq<Part>)

  datatype Session = Session(messages: seq<Message>)

  /** One entry of the chat history. */
  datatype HistoryEntry = HistoryEntry(role: string, content: Option<string>)

  /** Any role other than "user" is shown as "assistant". */
  function DisplayRole(role: string): (r: string)
    ensures r == "user" <==> role == "user"
    ensures r != "user" ==> r == "assistant"
  {
    if role == "user" then "user" else "assistant"
  }

  /** A message is shown when its first part has a `text` attribute. */
  predicate Shown(m: Message) {
    |m.parts| > 0 && m.parts[0].TextPart?
  }

  /** The history entries of some messages, in message order. */
  function HistoryOf(messages: seq<Message>): (r: seq<HistoryEntry>)
    ensures |r| <= |messages|
    ensures forall i :: 0 <= i < |r| ==> r[i].role == "user" || r[i].role == "assistant"
    decreases |messages|
  {
    if |messages| == 0 then []
    else
      var rest := HistoryOf(messages[1..]);
      var m := messages[0];
      if Shown(m) then [HistoryEntry(DisplayRole(m.role), m.parts[0].text)] + rest else rest
  }

  /** History distributes over concatenation: order is preserved. */
  lemma {:induction false} HistoryOfAppend(a: seq<Message>, b: seq<Message>)
    ensures HistoryOf(a + b) == HistoryOf(a) + HistoryOf(b)
    decreases |a|
  {
    if |a| == 0 {
      assert a + b == b;
    } else {
      assert (a + b)[0] == a[0];
      assert (a + b)[1..] == a[1..] + b;
      HistoryOfAppend(a[1..], b);
    }
  }

  /** One message gives one entry, holding its first part's text, exactly
      when it is shown. */
  lemma HistoryOfSingleton(m: Message)
    ensures HistoryOf([m]) == if Shown(m) then [HistoryEntry(DisplayRole(m.role), m.parts[0].text)] else []
  {
    assert [m][1..] == [];
  }

  /** `get_session_history_sync`: no session, or one without messages, has
      an empty history. */
  function SessionHistory(session: Option<Session>): (r: seq<HistoryEntry>)
    ensures session.None? || |session.value.messages| == 0 ==> r == []
    ensures session.Some? ==> |r| <= |session.value.messages|
    ensures |r| == 0 <==> session.None? || forall i :: 0 <= i < |session.value.messages| ==> !Shown(session.value.messages[i])
  {
    if session.None? || |session.value.messages| == 0 then []
    else
      var r := HistoryOf(session.value.messages);
      HistoryEmptyIffNoneShown(session.value.messages);
      r
  }

  /** The history is empty exactly when no message is shown. */
  lemma {:induction false} HistoryEmptyIffNoneShown(messages: seq<Message>)
    ensures |HistoryOf(messages)| == 0 <==> forall i :: 0 <= i < |messages| ==> !Shown(messages[i])
    decreases |messages|
  {
    if |messages| > 0 {
      HistoryEmptyIffNoneShown(messages[1..]);
      assert forall i :: 1 <= i < |messages| ==> messages[i] == messages[1..][i - 1];
    }
  }
}
