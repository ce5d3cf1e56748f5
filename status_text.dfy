/** What `create_status_message` produces, as values: the status text for one
    server query and the presence ledger after it. The imperative method that
    builds both step by step is `Bot.StatusBot.CreateStatusMessage`. */
module StatusText {
  import opened Wrappers
  import opened Text
  import opened NameOrder

  /** The first words of every status message. The bot also uses them to
      recognise its own status message in the channel. */
  const HeaderPrefix := "Last updated: "
  const QueryFailedText := "Could not get data from the server..."
  const PlayersHeading := "\nThe following players are online: "

  /** One successful server status query. `latencyMs` is the already rounded
      latency; `sample` is `None` when the server reported no player sample. */
  datatype Snapshot = Snapshot(online: int, max: int, latencyMs: int, sample: Option<seq<string>>)

  /** The presence ledger: player name to the time it was last seen online. */
  type Ledger = map<string, string>

  function Header(now: string): string
  {
    HeaderPrefix + now + "\n"
  }

  function CountLine(s: Snapshot): string
  {
    "The server has " + IntToString(s.online) + "/" + IntToString(s.max)
      + " players and replied in " + IntToString(s.latencyMs) + " ms"
  }

  /** The list line for the player numbered `index`. */
  function PlayerEntry(index: int, name: string): string
  {
    "\n" + IntToString(index) + ") " + name
  }

  /** The list lines for `names`, numbered from `first` upwards. */
  function PlayerEntries(names: seq<string>, first: int): seq<string>
  {
    seq(|names|, i requires 0 <= i < |names| => PlayerEntry(first + i, names[i]))
  }

  /** The whole status text for a query made at time `now`; `status` is `None`
      when the query failed. */
  function Render(now: string, status: Option<Snapshot>): string
  {
    Header(now) +
      match status
      case None => QueryFailedText
      case Some(s) =>
        CountLine(s) +
          match s.sample
          case None => ""
          case Some(p) => PlayersHeading + Concat(PlayerEntries(SortNames(p), 1))
  }

  /** The ledger after recording every name in `names` as seen at `now`,
      in list order. */
  function RecordAll(ledger: Ledger, names: seq<string>, now: string): Ledger
  {
    if names == [] then ledger
    else RecordAll(ledger, names[..|names| - 1], now)[names[|names| - 1] := now]
  }

  /** Whether `name` is in the player sample of a successful query. */
  predicate Sampled(status: Option<Snapshot>, name: string)
  {
    status.Some? && status.value.sample.Some? && name in status.value.sample.value
  }

  /** The ledger after rendering `status` at `now`: the sampled names are
      recorded in the order they are listed. */
  function Observe(ledger: Ledger, status: Option<Snapshot>, now: string): Ledger
  {
    match status
    case None => ledger
    case Some(s) =>
      match s.sample
      case None => ledger
      case Some(p) => RecordAll(ledger, SortNames(p), now)
  }

  /** Recording adds every listed name with time `now`, keeps every other
      entry as it was and removes nothing. */
  lemma {:induction false} RecordAllSpec(ledger: Ledger, names: seq<string>, now: string)
    ensures forall k :: k in RecordAll(ledger, names, now) <==> k in ledger || k in names
    ensures forall k :: k in names ==> RecordAll(ledger, names, now)[k] == now
    ensures forall k :: k in ledger && k !in names ==> RecordAll(ledger, names, now)[k] == ledger[k]
    decreases |names|
  {
    if names != [] {
      var init := names[..|names| - 1];
      RecordAllSpec(ledger, init, now);
      assert forall k :: k in names <==> k in init || k == names[|names| - 1];
    }
  }

  /** After a render, every sampled player maps to `now`, every other entry
      keeps its old value, and no entry is removed. A failed query or an
      absent sample leaves the ledger as it was. */
  lemma ObserveSpec(ledger: Ledger, status: Option<Snapshot>, now: string)
    ensures forall k :: k in Observe(ledger, status, now) <==> k in ledger || Sampled(status, k)
    ensures forall k :: Sampled(status, k) ==> Observe(ledger, status, now)[k] == now
    ensures forall k :: k in ledger && !Sampled(status, k) ==> Observe(ledger, status, now)[k] == ledger[k]
  {
    if status.Some? && status.value.sample.Some? {
      var p := status.value.sample.value;
      var sorted := SortNames(p);
      RecordAllSpec(ledger, sorted, now);
      forall k ensures k in sorted <==> k in p {
        assert k in sorted <==> k in multiset(sorted);
      }
    }
  }

  /** The list line at position `k` carries the number `first + k` and the
      name `names[k]`, between the lines before and after it: the numbering
      is contiguous and follows the list order. */
  lemma PlayerLinesAt(names: seq<string>, first: int, k: nat)
    requires k < |names|
    ensures Concat(PlayerEntries(names, first))
      == Concat(PlayerEntries(names[..k], first)) + PlayerEntry(first + k, names[k])
         + Concat(PlayerEntries(names[k + 1..], first + k + 1))
  {
    var before, at, after := PlayerEntries(names[..k], first), [PlayerEntry(first + k, names[k])], PlayerEntries(names[k + 1..], first + k + 1);
    assert PlayerEntries(names, first) == before + at + after;
    ConcatAppend(before + at, after);
    ConcatAppend(before, at);
    assert Concat(at) == PlayerEntry(first + k, names[k]);
  }

  /** Every status text begins with the header line, whatever the query gave. */
  lemma RenderStartsWithHeader(now: string, status: Option<Snapshot>)
    ensures Header(now) <= Render(now, status)
    ensures HeaderPrefix <= Render(now, status)
  {
    var r := Render(now, status);
    assert r[..|Header(now)|] == Header(now);
    assert Header(now)[..|HeaderPrefix|] == HeaderPrefix;
  }

  /** A failed query gives the header and the failure sentence, nothing more. */
  lemma RenderQueryFailed(now: string)
    ensures Render(now, None) == Header(now) + QueryFailedText
  {
  }

  /** Without a player sample nothing follows the count line. */
  lemma RenderSampleAbsent(now: string, s: Snapshot)
    requires s.sample.None?
    ensures Render(now, Some(s)) == Header(now) + CountLine(s)
  {
  }

  /** An empty sample still gives the list heading, and no list line. */
  lemma RenderSampleEmpty(now: string, s: Snapshot)
    requires s.sample == Some([])
    ensures Render(now, Some(s)) == Header(now) + CountLine(s) + PlayersHeading
  {
    assert PlayerEntries(SortNames([]), 1) == [];
  }

  /** With a sample, the heading is followed by one list line per sampled
      name: the names in ascending order (exactly the sampled ones), numbered
      from 1 (`PlayerLinesAt` gives the line at each position). */
  lemma RenderSamplePresent(now: string, s: Snapshot)
    requires s.sample.Some?
    ensures var sorted := SortNames(s.sample.value);
      && Sorted(sorted)
      && multiset(sorted) == multiset(s.sample.value)
      && Render(now, Some(s)) == Header(now) + CountLine(s) + PlayersHeading + Concat(PlayerEntries(sorted, 1))
  {
    SortNamesSorted(s.sample.value);
  }

  /** The text and the ledger do not depend on the order the server listed
      the sampled players in. */
  lemma RenderIgnoresSampleOrder(now: string, s: Snapshot, t: Snapshot, ledger: Ledger)
    requires s.online == t.online && s.max == t.max && s.latencyMs == t.latencyMs
    requires s.sample.Some? && t.sample.Some?
    requires multiset(s.sample.value) == multiset(t.sample.value)
    ensures Render(now, Some(s)) == Render(now, Some(t))
    ensures Observe(ledger, Some(s), now) == Observe(ledger, Some(t), now)
  {
    SortNamesIgnoresOrder(s.sample.value, t.sample.value);
  }

  lemma SortExample()
    ensures SortNames(["Bob", "Alice"]) == ["Alice", "Bob"]
  {
    var names := ["Bob", "Alice"];
    assert !Below("Bob", "Alice");
    assert SortNames(names[1..]) == ["Alice"];
  }

  lemma PlayerListExample()
    ensures Concat(PlayerEntries(["Alice", "Bob"], 1)) == "\n1) Alice\n2) Bob"
  {
    assert IntToString(1) == "1" && IntToString(2) == "2";
    var entries := PlayerEntries(["Alice", "Bob"], 1);
    assert entries[0] == "\n1) Alice" && entries[1] == "\n2) Bob";
    assert entries == ["\n1) Alice", "\n2) Bob"];
    assert entries[..1] == ["\n1) Alice"];
  }

  /** A worked example: two players listed out of order come out as
      "1) Alice" then "2) Bob", and both are recorded at the query time. */
  lemma RenderExample()
    ensures var snap := Snapshot(2, 20, 42, Some(["Bob", "Alice"]));
      && Render("02/02/2024 10:00:00", Some(snap))
         == Header("02/02/2024 10:00:00") + CountLine(snap) + PlayersHeading + "\n1) Alice\n2) Bob"
      && Observe(map[], Some(snap), "02/02/2024 10:00:00")
         == map["Alice" := "02/02/2024 10:00:00", "Bob" := "02/02/2024 10:00:00"]
  {
    var snap := Snapshot(2, 20, 42, Some(["Bob", "Alice"]));
    SortExample();
    PlayerListExample();
    RenderSamplePresent("02/02/2024 10:00:00", snap);
  }
}
