/**
  The prompt generator of the client: the state `(currentMode, wordHistory)`,
  the mode-change handler, the Space-key handler and the `generateContent`
  dispatch over the seven game modes.

  The page itself is reduced to what the handlers last put on it (`Screen`).
 */
module Game {
  import opened Pick
  import opened WordHistory

  /** The content pools the modes draw from. */
  datatype Pools = Pools(
    characters: Pool,
    situations: Pool,
    adjectives: Pool,
    allWords: Pool,
    topics: Pool,
    sayings: Pool)

  /** What the display shows. `Markup` is the page as first served, before
      any handler ran; `Blank` is a display that was cleared and left empty. */
  datatype Screen =
    | Markup
    | PressSpacebar
    | Lines(lines: seq<string>)
    | Stream(items: seq<Item>)
    | Blank

  /** The client's state: `currentMode`, `wordHistory`, and what the display shows. */
  datatype State = State(mode: string, history: seq<string>, screen: Screen)

  /** The state when the page loads: mode "1", empty buffer. */
  const Start: State := State("1", [], Markup)

  /** The user's inputs: a choice in the mode selector, or a released key
      together with the rolls for the first and second pick of a generation. */
  datatype Event =
    | ModeChange(value: string)
    | KeyUp(code: string, first: Roll, second: Roll)

  predicate IsKnownMode(mode: string) {
    mode in {"1", "2", "3", "4", "5", "6", "7"}
  }

  /** The buffer is capped, only mode "6" ever holds words, and a word-stream
      display shows exactly the buffer. */
  predicate Valid(g: State) {
    && |g.history| <= Cap
    && (g.history != [] ==> g.mode == "6")
    && (g.screen.Stream? ==> g.screen.items == Render(g.history))
  }

  /** `g` shows one line drawn from `pool` and has an empty buffer. */
  predicate ShowsOne(g: State, pool: Pool) {
    g.history == [] && g.screen.Lines? && |g.screen.lines| == 1 && IsPick(pool, g.screen.lines[0])
  }

  /** `g` shows two lines, drawn from `p1` and `p2`, and has an empty buffer. */
  predicate ShowsTwo(g: State, p1: Pool, p2: Pool) {
    && g.history == []
    && g.screen.Lines?
    && |g.screen.lines| == 2
    && IsPick(p1, g.screen.lines[0])
    && IsPick(p2, g.screen.lines[1])
  }

  /** `renderSingleLine` and `renderTwoLines`: show the lines and reset the buffer. */
  function ShowLines(g: State, lines: seq<string>): (g': State) {
    State(g.mode, [], Lines(lines))
  }

  /** `generateContent`: clear the display, then dispatch on the current mode.
      Two-pick modes draw `first` for the first line and `second` for the
      second; the word stream draws `first`. */
  function Generate(g: State, pools: Pools, first: Roll, second: Roll): (g': State)
    ensures g'.mode == g.mode
    ensures g.mode == "1" ==> ShowsTwo(g', pools.characters, pools.situations)
    ensures g.mode == "2" ==> ShowsTwo(g', pools.adjectives, pools.characters)
    ensures g.mode == "3" ==> ShowsOne(g', pools.allWords)
    ensures g.mode == "4" ==> ShowsOne(g', pools.topics)
    ensures g.mode == "5" ==> ShowsTwo(g', pools.topics, pools.topics)
    ensures g.mode == "7" ==> ShowsTwo(g', pools.sayings, pools.topics)
    ensures g.mode == "6" ==>
      && |g'.history| > 0
      && IsPick(pools.allWords, g'.history[0])
      && g'.history[1..] <= g.history
      && (|g.history| <= Cap ==> g'.history == [g'.history[0]] + g.history[..Min(|g.history|, Cap - 1)])
      && g'.screen == Stream(Render(g'.history))
    ensures !IsKnownMode(g.mode) ==> g'.history == g.history && g'.screen == Blank
  {
    match g.mode
    case "1" => ShowLines(g, [GetRandom(pools.characters, first), GetRandom(pools.situations, second)])
    case "2" => ShowLines(g, [GetRandom(pools.adjectives, first), GetRandom(pools.characters, second)])
    case "3" => ShowLines(g, [GetRandom(pools.allWords, first)])
    case "4" => ShowLines(g, [GetRandom(pools.topics, first)])
    case "5" => ShowLines(g, [GetRandom(pools.topics, first), GetRandom(pools.topics, second)])
    case "6" =>
      var h := Push(g.history, GetRandom(pools.allWords, first));
      State(g.mode, h, Stream(Render(h)))
    case "7" => ShowLines(g, [GetRandom(pools.sayings, first), GetRandom(pools.topics, second)])
    case _ => g.(screen := Blank)
  }

  /** The mode selector's change handler. */
  function SelectMode(g: State, value: string): (g': State)
    ensures g'.mode == value && g'.history == [] && g'.screen == PressSpacebar
    ensures Valid(g')
  {
    State(value, [], PressSpacebar)
  }

  /** One input event: a mode change, or a key release that generates only
      for the Space key. */
  function Step(g: State, pools: Pools, e: Event): (g': State)
    ensures Valid(g) ==> Valid(g')
    ensures e.ModeChange? ==> g'.mode == e.value && g'.history == []
    ensures e.KeyUp? ==> g'.mode == g.mode
    ensures e.KeyUp? && e.code != "Space" ==> g' == g
  {
    match e
    case ModeChange(value) => SelectMode(g, value)
    case KeyUp(code, first, second) =>
      if code == "Space" then Generate(g, pools, first, second) else g
  }

  /** A session: the events applied in order. */
  function Run(g: State, pools: Pools, events: seq<Event>): (g': State)
    ensures Valid(g) ==> Valid(g')
    decreases |events|
  {
    if events == [] then g else Run(Step(g, pools, events[0]), pools, events[1..])
  }

  lemma StartIsValid()
    ensures Valid(Start)
  {
  }

  /** Every state reachable from page load keeps the buffer within the cap. */
  lemma ReachableWithinCap(pools: Pools, events: seq<Event>)
    ensures |Run(Start, pools, events).history| <= Cap
  {
  }

  /** A generation in any mode other than "6" leaves the buffer empty. */
  lemma NonStreamClears(g: State, pools: Pools, first: Roll, second: Roll)
    requires IsKnownMode(g.mode) && g.mode != "6"
    ensures Generate(g, pools, first, second).history == []
    ensures Generate(g, pools, first, second).screen.Lines?
  {
  }

  /** The two picks of mode "5" are independent draws from the same pool:
      nothing keeps them apart. */
  lemma TopicsMayRepeat(g: State, pools: Pools, roll: Roll)
    requires g.mode == "5"
    ensures var s := Generate(g, pools, roll, roll).screen; s.Lines? && s.lines[0] == s.lines[1]
  {
  }

  predicate AllSpace(events: seq<Event>) {
    forall k :: 0 <= k < |events| ==> events[k].KeyUp? && events[k].code == "Space"
  }

  /** The words a run of Space presses in mode "6" draws. */
  function Drawn(pool: Pool, events: seq<Event>): (ws: seq<string>)
    requires AllSpace(events)
    ensures |ws| == |events|
    ensures forall k :: 0 <= k < |ws| ==> IsPick(pool, ws[k])
    decreases |events|
  {
    if events == [] then [] else [GetRandom(pool, events[0].first)] + Drawn(pool, events[1..])
  }

  /** Space presses in mode "6" push the drawn words into the buffer, in order. */
  lemma {:induction false} StreamRun(g: State, pools: Pools, events: seq<Event>)
    requires g.mode == "6" && AllSpace(events)
    ensures Run(g, pools, events).history == Feed(g.history, Drawn(pools.allWords, events))
    ensures Run(g, pools, events).mode == "6"
    ensures events != [] ==> Run(g, pools, events).screen == Stream(Render(Run(g, pools, events).history))
    decreases |events|
  {
    if events != [] {
      var g' := Step(g, pools, events[0]);
      assert g'.history == Push(g.history, GetRandom(pools.allWords, events[0].first));
      assert AllSpace(events[1..]);
      StreamRun(g', pools, events[1..]);
    }
  }

  /** Switching to mode "6" and pressing Space n times leaves the last
      min(n, 5) drawn words in the buffer, newest first, and shows them. */
  lemma SwitchThenStream(g: State, pools: Pools, events: seq<Event>)
    requires AllSpace(events)
    ensures var ws := Drawn(pools.allWords, events);
      var g' := Run(g, pools, [ModeChange("6")] + events);
      && g'.history == Reverse(ws)[..Min(|ws|, Cap)]
      && (events != [] ==> g'.screen == Stream(Render(g'.history)))
  {
    var e := [ModeChange("6")] + events;
    assert e[0] == ModeChange("6") && e[1..] == events;
    var g0 := Step(g, pools, ModeChange("6"));
    StreamRun(g0, pools, events);
    StreamFromEmpty(Drawn(pools.allWords, events));
  }
}
