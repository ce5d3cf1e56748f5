/** The decision `on_message` takes for each message the bot receives: leave
    it alone, delete it, or answer a last-connection query and then delete
    the query. The configured channel name, command prefix and command token
    are the `Config`; the presence ledger and the start time are inputs. */
module Routing {
  import opened Wrappers
  import opened Text
  import opened StatusText

  datatype Config = Config(botChannel: string, cmdChar: string, lastConnectionsCmd: string)

  /** A received message: whether the bot wrote it, the name of its channel,
      and its text. */
  datatype Incoming = Incoming(fromBot: bool, channel: string, content: string)

  /** What the handler does with a message. `Delete` removes it after `delay`
      seconds; `ReplyThenDelete` posts `reply` (removed after
      `replyLifetime` seconds) and then removes the query after `delay`. */
  datatype Action =
    | Ignore
    | Delete(delay: nat)
    | ReplyThenDelete(reply: string, replyLifetime: nat, delay: nat)

  const DeleteDelay := 1
  const ReplyLifetime := 10

  /** Everything after the first space-separated piece of the command. */
  function GetArguments(content: string): seq<string>
  {
    Split(content, ' ')[1..]
  }

  /** The player name of a last-connection query; `None` when the command has
      no argument, which makes `get_arguments(...)[0]` fail. */
  function PlayerArgument(content: string): Option<string>
  {
    var args := GetArguments(content);
    if |args| == 0 then None else Some(args[0])
  }

  /** The answer to a query about `name`. */
  function ReplyText(name: string, ledger: Ledger, startTime: string): string
  {
    if name in ledger then name + " was last online on " + ledger[name] + "."
    else name + " wasn't online since " + startTime + "."
  }

  /** The bot's own status message (or an older copy of it). */
  predicate IsStatusMessage(msg: Incoming)
  {
    msg.fromBot && HeaderPrefix <= msg.content
  }

  /** The branches of `on_message`, in the order the handler tries them. */
  function Route(msg: Incoming, cfg: Config, ledger: Ledger, startTime: string): Action
  {
    if IsStatusMessage(msg) then Ignore
    else if !msg.fromBot && msg.channel == cfg.botChannel && cfg.cmdChar <= msg.content then
      if cfg.lastConnectionsCmd <= msg.content then
        match PlayerArgument(msg.content)
        case Some(name) => ReplyThenDelete(ReplyText(name, ledger, startTime), ReplyLifetime, DeleteDelay)
        case None => Delete(DeleteDelay)
      else Delete(DeleteDelay)
    else if msg.channel == cfg.botChannel then Delete(DeleteDelay)
    else Ignore
  }

  /** A query has an argument exactly when its text contains a space, and
      the argument itself never contains one. */
  lemma PlayerArgumentExists(content: string)
    ensures PlayerArgument(content).Some? <==> ' ' in content
    ensures PlayerArgument(content).Some? ==> ' ' !in PlayerArgument(content).value
  {
    SplitHasSecondPiece(content, ' ');
  }

  /** The argument is the text between the first space and the next space
      (or the end of the message); it is empty when two spaces follow each
      other. */
  lemma PlayerArgumentOf(head: string, arg: string, tail: string)
    requires ' ' !in head && ' ' !in arg
    requires tail == "" || tail[0] == ' '
    ensures PlayerArgument(head + " " + arg + tail) == Some(arg)
  {
    var content := head + " " + arg + tail;
    if tail == "" {
      assert Join([head, arg], ' ') == content;
      JoinSplit([head, arg], ' ');
    } else {
      var rest := Split(tail[1..], ' ');
      SplitJoin(tail[1..], ' ');
      var parts := [head, arg] + rest;
      assert parts[1..] == [arg] + rest;
      assert parts[2..] == rest;
      assert Join(parts, ' ') == head + " " + (arg + " " + Join(rest, ' '));
      assert tail == " " + tail[1..];
      assert Join(parts, ' ') == content;
      forall k | 0 <= k < |parts| ensures ' ' !in parts[k] {
        if k >= 2 { assert parts[k] == rest[k - 2]; }
      }
      JoinSplit(parts, ' ');
    }
  }

  /** When the handler leaves a message alone: the status message in any
      channel, and anything outside the bot channel. */
  lemma RouteIgnoreIff(msg: Incoming, cfg: Config, ledger: Ledger, startTime: string)
    ensures Route(msg, cfg, ledger, startTime) == Ignore
      <==> IsStatusMessage(msg) || msg.channel != cfg.botChannel
  {
  }

  /** When the handler answers: a message by someone else in the bot channel
      that starts with the command prefix and the command token and has an
      argument. The answer is the ledger reply for that argument. */
  lemma RouteReplyIff(msg: Incoming, cfg: Config, ledger: Ledger, startTime: string)
    ensures Route(msg, cfg, ledger, startTime).ReplyThenDelete?
      <==> !msg.fromBot && msg.channel == cfg.botChannel && cfg.cmdChar <= msg.content
           && cfg.lastConnectionsCmd <= msg.content && ' ' in msg.content
    ensures Route(msg, cfg, ledger, startTime).ReplyThenDelete? ==>
      PlayerArgument(msg.content).Some?
      && Route(msg, cfg, ledger, startTime)
         == ReplyThenDelete(ReplyText(PlayerArgument(msg.content).value, ledger, startTime), ReplyLifetime, DeleteDelay)
  {
    PlayerArgumentExists(msg.content);
  }

  /** Every other message in the bot channel is deleted after one second:
      other bot messages, messages without the prefix, unknown commands and
      queries without an argument. */
  lemma RouteDeleteIff(msg: Incoming, cfg: Config, ledger: Ledger, startTime: string)
    ensures Route(msg, cfg, ledger, startTime).Delete? ==> Route(msg, cfg, ledger, startTime) == Delete(DeleteDelay)
    ensures Route(msg, cfg, ledger, startTime).Delete?
      <==> msg.channel == cfg.botChannel && !IsStatusMessage(msg)
           && !(!msg.fromBot && cfg.cmdChar <= msg.content && cfg.lastConnectionsCmd <= msg.content && ' ' in msg.content)
  {
    PlayerArgumentExists(msg.content);
  }

  /** Every status text the bot renders is left alone when it arrives, in
      whatever channel, whatever it contains after the header. */
  lemma RenderedStatusIgnored(now: string, status: Option<Snapshot>, channel: string, cfg: Config, ledger: Ledger, startTime: string)
    ensures Route(Incoming(true, channel, Render(now, status)), cfg, ledger, startTime) == Ignore
  {
    RenderStartsWithHeader(now, status);
  }

  /** A text made of a space-free word, a space and then "w..." cannot start
      with the status header, whose first word "Last" is followed by
      " updated". */
  lemma NotStatusHeader(text: string, word: string)
    requires ' ' !in word
    requires |text| > |word| + 1 && text[..|word|] == word
    requires text[|word|] == ' ' && text[|word| + 1] == 'w'
    ensures !(HeaderPrefix <= text)
  {
    if |word| > 4 {
      assert text[4] == word[4] != ' ' == HeaderPrefix[4];
    } else if |word| < 4 {
      assert text[|word|] == ' ' != HeaderPrefix[|word|];
    } else {
      assert text[5] == 'w' != HeaderPrefix[5];
    }
  }

  /** The bot's own answer does not start with the status header, so when it
      arrives in the bot channel it is deleted after one second, well before
      its own ten-second lifetime ends. */
  lemma OwnReplyDeleted(msg: Incoming, cfg: Config, ledger: Ledger, startTime: string, ledger': Ledger, startTime': string)
    requires Route(msg, cfg, ledger, startTime).ReplyThenDelete?
    ensures Route(Incoming(true, cfg.botChannel, Route(msg, cfg, ledger, startTime).reply), cfg, ledger', startTime')
      == Delete(DeleteDelay)
  {
    PlayerArgumentExists(msg.content);
    var name := PlayerArgument(msg.content).value;
    var reply := ReplyText(name, ledger, startTime);
    assert Route(msg, cfg, ledger, startTime).reply == reply;
    assert reply[..|name|] == name && reply[|name|] == ' ' && reply[|name| + 1] == 'w';
    NotStatusHeader(reply, name);
  }

  /** A player seen in the latest sample is reported as seen at that render's
      time; a player never seen since start-up is reported with the start
      time. */
  lemma ReplyAfterObserve(ledger: Ledger, status: Option<Snapshot>, now: string, name: string, startTime: string)
    ensures Sampled(status, name)
      ==> ReplyText(name, Observe(ledger, status, now), startTime) == name + " was last online on " + now + "."
    ensures !Sampled(status, name) && name !in ledger
      ==> ReplyText(name, Observe(ledger, status, now), startTime) == name + " wasn't online since " + startTime + "."
  {
    ObserveSpec(ledger, status, now);
  }

  /** A query about a player nobody has seen since start-up is answered with
      the start time (for instance "!lastseen Steve" with an empty ledger). */
  lemma RouteUnseenPlayer(cfg: Config, name: string, startTime: string)
    requires ' ' !in cfg.lastConnectionsCmd && ' ' !in name
    requires cfg.cmdChar <= cfg.lastConnectionsCmd
    ensures Route(Incoming(false, cfg.botChannel, cfg.lastConnectionsCmd + " " + name), cfg, map[], startTime)
      == ReplyThenDelete(name + " wasn't online since " + startTime + ".", ReplyLifetime, DeleteDelay)
  {
    var content := cfg.lastConnectionsCmd + " " + name;
    PlayerArgumentOf(cfg.lastConnectionsCmd, name, "");
    assert cfg.lastConnectionsCmd + " " + name + "" == content;
    assert content[..|cfg.lastConnectionsCmd|] == cfg.lastConnectionsCmd;
    assert content[..|cfg.cmdChar|] == cfg.lastConnectionsCmd[..|cfg.cmdChar|];
  }
}
