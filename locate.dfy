/** The start-up search in `on_ready` for a message to keep editing. The
    channel history is given newest first, each entry already paired with the
    outcome of fetching that message again by id. */
module Locate {
  import opened Wrappers

  /** A channel message as the bot sees it. */
  datatype Message = Message(id: nat, fromBot: bool, content: string)

  /** Re-fetching one history entry: the message, or "not found" when it was
      deleted in the meantime. */
  datatype Fetch = Found(message: Message) | NotFound

  /** How many of the most recent messages the history request returns. */
  const HistoryLimit := 100

  /** The part of the newest-first history the scan looks at. */
  function Window(history: seq<Fetch>): (w: seq<Fetch>)
    ensures |w| == if |history| <= HistoryLimit then |history| else HistoryLimit
    ensures w <= history
  {
    if |history| <= HistoryLimit then history else history[..HistoryLimit]
  }

  /** The message of the first entry whose fetch succeeded, whoever wrote it
      and whatever it says; `None` when every fetch failed. */
  function FirstFetched(window: seq<Fetch>): (r: Option<Message>)
    ensures r.None? <==> forall i :: 0 <= i < |window| ==> window[i].NotFound?
    ensures r.Some? ==>
      exists i :: (0 <= i < |window| && window[i] == Found(r.value)
                   && forall j :: 0 <= j < i ==> window[j].NotFound?)
  {
    if window == [] then None
    else if window[0].Found? then Some(window[0].message)
    else
      var r := FirstFetched(window[1..]);
      assert r.Some? ==> exists i :: (0 < i < |window| && window[i] == Found(r.value)
                                      && forall j :: 0 <= j < i ==> window[j].NotFound?)
      by {
        if r.Some? {
          var i :| 0 <= i < |window[1..]| && window[1..][i] == Found(r.value)
            && forall j :: 0 <= j < i ==> window[1..][j].NotFound?;
          assert window[i + 1] == Found(r.value);
        }
      }
      r
  }

  /** The scan loop: try each entry in turn and stop at the first message
      that could be fetched. */
  method LocateScan(window: seq<Fetch>) returns (lastMessage: Option<Message>)
    ensures lastMessage == FirstFetched(window)
  {
    lastMessage := None;
    for i := 0 to |window|
      invariant lastMessage.None?
      invariant forall j :: 0 <= j < i ==> window[j].NotFound?
    {
      match window[i]
      case Found(m) =>
        lastMessage := Some(m);
        break;
      case NotFound =>
    }
  }
}
