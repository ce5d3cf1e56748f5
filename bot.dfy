/** The bot's process-wide state: the presence ledger `players_last_login`,
    which rendering updates in place, and the start time. The status query,
    the clock and the chat service are parameters of the methods. */
module Bot {
  import opened Wrappers
  import opened Text
  import opened NameOrder
  import opened StatusText
  import opened Locate
  import opened Routing

  class StatusBot {
    var playersLastLogin: Ledger
    const startTime: string

    /** Start-up: an empty ledger and the time the process started. */
    constructor (startTime: string)
      ensures this.startTime == startTime
      ensures playersLastLogin == map[]
    {
      this.startTime := startTime;
      playersLastLogin := map[];
    }

    /** Builds the status text for a query made at `now` (`status` is `None`
        when the query raised), recording every sampled player in the ledger
        while it lists them. */
    method CreateStatusMessage(now: string, status: Option<Snapshot>) returns (message: string)
      modifies this
      ensures message == Render(now, status)
      ensures playersLastLogin == Observe(old(playersLastLogin), status, now)
    {
      message := HeaderPrefix + now + "\n";
      match status {
        case None =>
          message := message + QueryFailedText;
          RenderQueryFailed(now);
        case Some(s) =>
          message := message + CountLine(s);
          match s.sample {
            case None =>
              RenderSampleAbsent(now, s);
            case Some(p) =>
              message := message + PlayersHeading;
              var lines := ListPlayers(SortNames(p), now);
              message := message + lines;
              RenderSamplePresent(now, s);
          }
      }
    }

    /** The listing loop of `CreateStatusMessage`: one numbered line per name,
        counting from 1, each name recorded as seen at `now` as it is listed. */
    method ListPlayers(players: seq<string>, now: string) returns (lines: string)
      modifies this
      ensures lines == Concat(PlayerEntries(players, 1))
      ensures playersLastLogin == RecordAll(old(playersLastLogin), players, now)
    {
      lines := "";
      var index := 1;
      for i := 0 to |players|
        invariant index == i + 1
        invariant lines == Concat(PlayerEntries(players[..i], 1))
        invariant playersLastLogin == RecordAll(old(playersLastLogin), players[..i], now)
      {
        ghost var entries, entry := PlayerEntries(players[..i], 1), PlayerEntry(index, players[i]);
        assert Concat(PlayerEntries(players[..i + 1], 1)) == Concat(entries) + entry by {
          assert PlayerEntries(players[..i + 1], 1) == entries + [entry];
          assert (entries + [entry])[..|entries|] == entries;
        }
        lines := lines + ("\n" + IntToString(index) + ") " + players[i]);
        assert players[..i + 1][..i] == players[..i];
        playersLastLogin := playersLastLogin[players[i] := now];
        index := index + 1;
      }
      assert players[..|players|] == players;
    }

    /** `on_ready`: scan the newest `HistoryLimit` messages for the first one
        that can still be fetched; when there is none, send a fresh status
        text. The message to edit is the one found, and stays `None` when a
        new message had to be sent. */
    method OnReady(history: seq<Fetch>, now: string, status: Option<Snapshot>)
      returns (editTarget: Option<Message>, sent: Option<string>)
      modifies this
      ensures editTarget == FirstFetched(Window(history))
      ensures editTarget.None? ==> sent == Some(Render(now, status))
      ensures editTarget.None? ==> playersLastLogin == Observe(old(playersLastLogin), status, now)
      ensures editTarget.Some? ==> sent == None && playersLastLogin == old(playersLastLogin)
    {
      editTarget := LocateScan(Window(history));
      sent := None;
      if editTarget.None? {
        var content := CreateStatusMessage(now, status);
        sent := Some(content);
      }
    }

    /** `on_message`: the decision for a received message, taken on the
        current ledger and the start-up time. */
    method OnMessage(msg: Incoming, cfg: Config) returns (action: Action)
      ensures action == Route(msg, cfg, playersLastLogin, startTime)
    {
      action := Route(msg, cfg, playersLastLogin, startTime);
    }

    /** One round of the update loop: render a fresh status text (which
        updates the ledger whether or not the edit lands), then try to put it
        into `target`. An edit of no message, or one the chat service
        refuses, fails quietly. */
    method SyncTick(target: Option<Message>, now: string, status: Option<Snapshot>, editAccepted: bool)
      returns (content: string, edited: bool)
      modifies this
      ensures content == Render(now, status)
      ensures playersLastLogin == Observe(old(playersLastLogin), status, now)
      ensures edited <==> target.Some? && editAccepted
    {
      content := CreateStatusMessage(now, status);
      edited := target.Some? && editAccepted;
    }
  }
}
